/**
 * internal/parsers_stun.go: decoding a received STUN message into its
 * header and attribute list.
 */
module ParsersStun {
  import opened Results
  import opened Bytes
  import opened Helper
  import opened HelpersStun
  import opened TypesStun

  /**
   * parseSTUNMessageType: the class from bits 0x0010 and 0x0100, the method
   * compacted from bits 0x000F, 0x00E0 and 0x3E00.
   */
  function ParseMessageType(t: seq<byte>): (m: MessageType)
    requires |t| == 2
    ensures m.msgClass <= 3 && m.msgMethod < 0x1000
  {
    var buf := ReadU16(t);
    MessageType((buf / 0x10) % 2 + ((buf / 0x100) % 2) * 2,
                buf % 0x10 + ((buf / 0x20) % 8) * 0x10 + ((buf / 0x200) % 0x20) * 0x80)
  }

  /** The worked example of parsers_stun.go: 0x0113 is class 3 (error response), method 3 (Allocate). */
  lemma ParseMessageTypeExample()
    ensures ParseMessageType([0x01, 0x13]) == MessageType(3, 3)
  {
  }

  /**
   * Decoding an encoded message type gives it back exactly when the class
   * fits in 2 bits and the method in 4: toUint16 does not shift the higher
   * method bits, so methods from 0x10 up come back different.
   */
  lemma TypeRoundTrip(m: MessageType)
    ensures ParseMessageType(SerializeType(m)) == m <==> m.msgClass <= 3 && m.msgMethod <= 0x0f
  {
    var d := ParseMessageType(SerializeType(m));
    var c, x := m.msgClass, m.msgMethod;
    assert d.msgClass == c % 2 + ((c / 2) % 2) * 2;
    assert d.msgMethod == x % 16 + ((x / 32) % 8) * 16 + ((x / 512) % 32) * 128;
    ClassCompact(c);
    MethodCompact(x);
  }

  /** The two class bits read back give the class exactly when it fits in 2 bits. */
  lemma ClassCompact(c: nat)
    ensures c % 2 + ((c / 2) % 2) * 2 == c <==> c <= 3
  {
    TypeFields(c);
  }

  /** The method bits read back give the method exactly when it fits in 4 bits. */
  lemma MethodCompact(x: nat)
    ensures x % 16 + ((x / 32) % 8) * 16 + ((x / 512) % 32) * 128 == x <==> x < 16
  {
    if x < 16 {
      DivModOf(x, 16, 0, x);
      DivModOf(x, 32, 0, x);
      DivModOf(x, 512, 0, x);
    } else {
      TypeFields(x);
      var lo, b4, m1, b8, m2, hi := x % 16, (x / 16) % 2, (x / 32) % 8, (x / 256) % 2, (x / 512) % 32, x / 16384;
      assert x == lo + 16 * b4 + 32 * m1 + 256 * b8 + 512 * m2 + 16384 * hi;
      assert lo < 16 && b4 >= 0 && m1 >= 0 && b8 >= 0 && m2 >= 0 && hi >= 0;
      assert lo + m1 * 16 + m2 * 128 != x;
    }
  }

  /** Methods from 0x10 up do not survive the codec; 0x10 itself comes back as 0. */
  lemma LargeMethodExample()
    ensures ParseMessageType(SerializeType(MessageType(0, 0x10))) == MessageType(0, 0)
  {
  }

  /**
   * The message type field of section 6 of RFC 5389: method bits M0-M3 at
   * bits 0-3, class bit C0 at bit 4, M4-M6 at bits 5-7, class bit C1 at
   * bit 8 and M7-M11 at bits 9-13, with the top two bits zero. This is the
   * layout parseSTUNMessageType decodes; it is stated independently of it.
   */
  function RfcPack(c: nat, m: nat): (r: u16)
    requires c <= 3 && m < 0x1000
    ensures r < 0x4000
  {
    m % 0x10 + (c % 2) * 0x10 + ((m / 0x10) % 8) * 0x20 + (c / 2) * 0x100 + (m / 0x80) * 0x200
  }

  /** A 12-bit method splits into its low 4 bits, the next 3 and the top 5. */
  lemma MethodFields(m: nat)
    ensures m == m % 0x10 + ((m / 0x10) % 8) * 0x10 + (m / 0x80) * 0x80
  {
    var q := m / 0x10;
    DivModOf(m, 0x80, q / 8, m % 0x10 + 0x10 * (q % 8));
  }

  /** Every class 0..3 and method below 0x1000, packed as section 6 of RFC 5389 lays them out, parses back. */
  lemma ParseRfcPack(c: nat, m: nat)
    requires c <= 3 && m < 0x1000
    ensures ParseMessageType(PutUint16(RfcPack(c, m))) == MessageType(c, m)
  {
    PackedFields(c % 2, c / 2, m % 0x10, (m / 0x10) % 8, m / 0x80);
    MethodFields(m);
  }

  /** Conversely, every two bytes are the RFC packing of what they parse to, once bits 14 and 15 are dropped. */
  lemma RfcPackOfParse(t: seq<byte>)
    requires |t| == 2
    ensures var d := ParseMessageType(t);
      RfcPack(d.msgClass, d.msgMethod) == ReadU16(t) % 0x4000
  {
    var buf := ReadU16(t);
    var d := ParseMessageType(t);
    var lo, b4, m1, b8, m2 := buf % 0x10, (buf / 0x10) % 2, (buf / 0x20) % 8, (buf / 0x100) % 2, (buf / 0x200) % 0x20;
    TypeFields(buf);
    DivModOf(buf, 0x4000, buf / 0x4000, lo + 0x10 * b4 + 0x20 * m1 + 0x100 * b8 + 0x200 * m2);
    DivModOf(d.msgMethod, 0x10, m1 + 8 * m2, lo);
    DivModOf(m1 + 8 * m2, 8, m2, m1);
    DivModOf(d.msgMethod, 0x80, m2, lo + 0x10 * m1);
    DivModOf(d.msgClass, 2, b8, b4);
  }

  /** parseSTUNMessageType ignores bits 14 and 15 of the type field. */
  lemma ParseIgnoresTopBits(t: seq<byte>, t': seq<byte>)
    requires |t| == 2 && |t'| == 2 && ReadU16(t) % 0x4000 == ReadU16(t') % 0x4000
    ensures ParseMessageType(t) == ParseMessageType(t')
  {
    var d, d' := ParseMessageType(t), ParseMessageType(t');
    RfcPackOfParse(t);
    RfcPackOfParse(t');
    ParseRfcPack(d.msgClass, d.msgMethod);
    ParseRfcPack(d'.msgClass, d'.msgMethod);
  }

  /** parseHeader: type from bytes 0-1, length from bytes 2-3, ID from bytes 8-19; bytes 4-7 are not read. */
  function ParseHeader(h: seq<byte>): (hd: Header)
    requires |h| == HeaderSize
    ensures hd.messageType == ParseMessageType(h[0..2])
    ensures hd.messageLength == ReadU16(h[2..4]) && hd.transactionId == h[8..20]
  {
    Header(ParseMessageType(h[0..2]), ReadU16(h[2..4]), h[8..20])
  }

  /** Two headers that differ only in the magic-cookie bytes 4-7 parse the same. */
  lemma ParseHeaderIgnoresCookie(h: seq<byte>, h': seq<byte>)
    requires |h| == HeaderSize && |h'| == HeaderSize
    requires h[..4] == h'[..4] && h[8..] == h'[8..]
    ensures ParseHeader(h) == ParseHeader(h')
  {
    assert h[0..2] == h[..4][0..2] && h'[0..2] == h'[..4][0..2];
    assert h[2..4] == h[..4][2..4] && h'[2..4] == h'[..4][2..4];
    assert h[8..20] == h[8..] && h'[8..20] == h'[8..];
  }

  /** The attribute at `pos` has its 4-byte header and its whole value inside `b`. */
  predicate Fits(b: seq<byte>, pos: nat)
  {
    pos + 4 <= |b| && pos + 4 + ReadU16(b[pos + 2..pos + 4]) <= |b|
  }

  /** The cursor after one attribute: past the value, then up to the next multiple of 4. */
  function NextPos(b: seq<byte>, pos: nat): (next: nat)
    requires Fits(b, pos)
    ensures next >= pos + 4 && next % 4 == 0
  {
    var e := pos + 4 + ReadU16(b[pos + 2..pos + 4]);
    if e % 4 != 0 then e + (4 - e % 4) else e
  }

  /**
   * Every attribute the loop reaches from `pos` fits; parsers_stun.go
   * slices past the end (a panic) when one does not.
   */
  predicate Framed(b: seq<byte>, pos: nat)
    decreases |b| - pos
  {
    pos >= |b| || (Fits(b, pos) && Framed(b, NextPos(b, pos)))
  }

  /** The attribute parsed at `pos`, with the padding the loop skipped after it. */
  function AttributeAt(b: seq<byte>, pos: nat): (a: Attribute)
    requires Fits(b, pos)
    ensures |a.value| == a.length && a.padding < 4
    ensures pos % 4 == 0 ==> a.padding == PadLength(a.length)
  {
    var length := ReadU16(b[pos + 2..pos + 4]);
    var e := pos + 4 + length;
    var pad := RemPadding(e);
    PadLengthOf(pos + 4, length);
    Attribute(ReadU16(b[pos..pos + 2]), length, b[pos + 4..e], pad)
  }

  /** The padding the loop skips when the cursor stands at `e`: 4 - e % 4 unless that is 4. */
  function RemPadding(e: nat): (pad: nat)
    ensures pad == (4 - e % 4) % 4
  {
    if e % 4 != 0 then 4 - e % 4 else 0
  }

  /** The padding after a value that starts on a 4-byte boundary is PadLength of its length. */
  lemma PadLengthOf(start: nat, len: nat)
    ensures start % 4 == 0 ==> RemPadding(start + len) == PadLength(len)
  {
    if start % 4 == 0 {
      DivModOf(start + len, 4, start / 4 + len / 4, len % 4);
      PadUnique(len, PadLength(len));
    }
  }

  /** The attributes from `pos` to the end of `b`, in order. */
  function ParseFrom(b: seq<byte>, pos: nat): (r: seq<Attribute>)
    requires Framed(b, pos)
    ensures r == [] <==> pos >= |b|
    ensures pos % 4 == 0 ==> forall i :: 0 <= i < |r| ==>
              |r[i].value| == r[i].length && r[i].padding == PadLength(r[i].length)
    decreases |b| - pos
  {
    if pos >= |b| then [] else [AttributeAt(b, pos)] + ParseFrom(b, NextPos(b, pos))
  }

  /**
   * parseAttributes with an unbounded cursor: read type, length and value,
   * skip the padding, and stop once the cursor reaches or passes the end.
   */
  method ParseAttributes(attributes: seq<byte>) returns (attrs: seq<Attribute>)
    requires Framed(attributes, 0)
    ensures attrs == ParseFrom(attributes, 0)
  {
    attrs := [];
    if |attributes| == 0 {
      return;
    }
    var attrsRemaining := true;
    var inLength := |attributes|;
    var bufPos: nat := 0;
    while attrsRemaining
      invariant attrsRemaining ==> bufPos < inLength && Framed(attributes, bufPos)
                                   && attrs + ParseFrom(attributes, bufPos) == ParseFrom(attributes, 0)
      invariant !attrsRemaining ==> attrs == ParseFrom(attributes, 0)
      decreases if attrsRemaining then inLength - bufPos + 1 else 0
    {
      ghost var start := bufPos;
      assert Fits(attributes, start) && Framed(attributes, NextPos(attributes, start));
      var attr;
      attr, bufPos := ReadAttribute(attributes, bufPos);
      if bufPos >= inLength {
        attrsRemaining := false;
      }
      ParseFromStep(attributes, start);
      assert (attrs + [attr]) + ParseFrom(attributes, bufPos) == attrs + ParseFrom(attributes, start);
      attrs := attrs + [attr];
    }
  }

  /** The body of the loop in parseAttributes: type, length, value, then the cursor past the padding. */
  method ReadAttribute(attributes: seq<byte>, pos: nat) returns (attr: Attribute, bufPos: nat)
    requires Fits(attributes, pos)
    ensures attr == AttributeAt(attributes, pos) && bufPos == NextPos(attributes, pos)
  {
    var typ := ReadU16(attributes[pos..pos + 2]);
    bufPos := pos + 2;
    var length := ReadU16(attributes[bufPos..bufPos + 2]);
    bufPos := bufPos + 2;
    var value := attributes[bufPos..bufPos + length];
    bufPos := bufPos + length;
    var padding := 0;
    var rem := bufPos % 4;
    if rem != 0 {
      padding := 4 - rem;
      bufPos := bufPos + padding;
    }
    attr := Attribute(typ, length, value, padding);
  }

  /** One step of ParseFrom, for the loop above. */
  lemma ParseFromStep(b: seq<byte>, pos: nat)
    requires pos < |b| && Framed(b, pos)
    ensures Fits(b, pos) && Framed(b, NextPos(b, pos))
    ensures ParseFrom(b, pos) == [AttributeAt(b, pos)] + ParseFrom(b, NextPos(b, pos))
  {
  }

  /** An attribute that serializes without loss: its value fits a uint16 length, which is 0 or exact. */
  predicate WellFormed(a: Attribute)
  {
    |a.value| < 0x1_0000 && (a.length == 0 || a.length == |a.value|)
  }

  /** The attribute as the parser sees it again: the real length and its padding. */
  function Normalized(a: Attribute): (n: Attribute)
    requires WellFormed(a)
    ensures n.typ == a.typ && n.value == a.value
  {
    Attribute(a.typ, |a.value|, a.value, PadLength(|a.value|))
  }

  function NormalizedAll(attrs: seq<Attribute>): (r: seq<Attribute>)
    requires forall i :: 0 <= i < |attrs| ==> WellFormed(attrs[i])
    ensures |r| == |attrs| && forall i :: 0 <= i < |attrs| ==> r[i] == Normalized(attrs[i])
  {
    if |attrs| == 0 then [] else [Normalized(attrs[0])] + NormalizedAll(attrs[1..])
  }

  /** Parsing is unaffected by an aligned prefix before the cursor. */
  lemma {:induction false} ParseShift(x: seq<byte>, rest: seq<byte>, p: nat)
    requires |x| % 4 == 0 && Framed(rest, p)
    ensures Framed(x + rest, |x| + p) && ParseFrom(x + rest, |x| + p) == ParseFrom(rest, p)
    decreases |rest| - p
  {
    var s := x + rest;
    if p < |rest| {
      ShiftStep(x, rest, p);
      var q := NextPos(rest, p);
      ParseShift(x, rest, q);
      assert Framed(s, |x| + p);
      ParseFromStep(s, |x| + p);
      ParseFromStep(rest, p);
    } else {
      assert ParseFrom(s, |x| + p) == [] == ParseFrom(rest, p);
    }
  }

  /** One attribute read after an aligned prefix is the same attribute. */
  lemma ShiftStep(x: seq<byte>, rest: seq<byte>, p: nat)
    requires |x| % 4 == 0 && Fits(rest, p)
    ensures Fits(x + rest, |x| + p)
    ensures AttributeAt(x + rest, |x| + p) == AttributeAt(rest, p)
    ensures NextPos(x + rest, |x| + p) == |x| + NextPos(rest, p)
  {
    var s := x + rest;
    var len := ReadU16(rest[p + 2..p + 4]);
    assert s[|x| + p + 2..|x| + p + 4] == rest[p + 2..p + 4];
    assert s[|x| + p..|x| + p + 2] == rest[p..p + 2];
    assert s[|x| + p + 4..|x| + p + 4 + len] == rest[p + 4..p + 4 + len];
    var e := p + 4 + len;
    DivModOf(|x| + e, 4, |x| / 4 + e / 4, e % 4);
  }

  /**
   * Parsing the concatenation of serialized attributes gives back the same
   * types and values in the same order, with their real lengths.
   */
  lemma {:induction false} ParseSerialized(attrs: seq<Attribute>)
    requires forall i :: 0 <= i < |attrs| ==> WellFormed(attrs[i])
    ensures Framed(SerializeAttributes(attrs), 0)
    ensures ParseFrom(SerializeAttributes(attrs), 0) == NormalizedAll(attrs)
  {
    if |attrs| > 0 {
      var rest := SerializeAttributes(attrs[1..]);
      assert SerializeAttributes(attrs) == SerializeAttribute(attrs[0]) + rest;
      assert forall i :: 0 <= i < |attrs[1..]| ==> WellFormed(attrs[1..][i]) by {
        forall i | 0 <= i < |attrs[1..]| ensures WellFormed(attrs[1..][i]) {
          assert attrs[1..][i] == attrs[i + 1];
        }
      }
      ParseSerialized(attrs[1..]);
      ParseCons(attrs[0], rest);
      assert NormalizedAll(attrs) == [Normalized(attrs[0])] + NormalizedAll(attrs[1..]);
    }
  }

  /** Parsing a serialized attribute followed by a framed block. */
  lemma ParseCons(a: Attribute, rest: seq<byte>)
    requires WellFormed(a) && Framed(rest, 0)
    ensures Framed(SerializeAttribute(a) + rest, 0)
    ensures ParseFrom(SerializeAttribute(a) + rest, 0) == [Normalized(a)] + ParseFrom(rest, 0)
  {
    var x := SerializeAttribute(a);
    ReadSerialized(a, rest);
    ParseShift(x, rest, 0);
    assert ParseFrom(x + rest, 0) == [AttributeAt(x + rest, 0)] + ParseFrom(x + rest, |x|);
  }

  /** The first attribute read from a serialized attribute is that attribute, normalized. */
  lemma ReadSerialized(a: Attribute, rest: seq<byte>)
    requires WellFormed(a)
    ensures var s := SerializeAttribute(a) + rest;
      && Fits(s, 0) && AttributeAt(s, 0) == Normalized(a) && NextPos(s, 0) == |SerializeAttribute(a)|
  {
    var x := SerializeAttribute(a);
    var s := x + rest;
    assert s[2..4] == x[2..4] && s[0..2] == x[0..2];
    assert EffectiveLength(a) == |a.value|;
    assert s[4..4 + |a.value|] == a.value;
    PadLengthShift(|a.value|);
  }

  /** parseAttributes of an empty block is the empty list, and of a non-empty block is not. */
  lemma ParseEmpty(b: seq<byte>)
    requires Framed(b, 0)
    ensures ParseFrom(b, 0) == [] <==> |b| == 0
  {
  }

  /** Why fromBytes refused a buffer. */
  datatype FromBytesError =
    | PacketTooShort(data: seq<byte>)
    | SizeMismatch(expected: nat, received: nat, extra: seq<byte>)

  /**
   * What fromBytes needs of a well-sized buffer to finish: its attribute
   * block is framed. A buffer it rejects needs nothing.
   */
  predicate AttributesFramed(data: seq<byte>)
  {
    |data| >= HeaderSize && ReadU16(data[2..4]) + HeaderSize == |data| ==> Framed(data[HeaderSize..], 0)
  }

  /**
   * fromBytes: at least 20 bytes, exactly MessageLength + 20 of them, then
   * the header and the attributes that follow it.
   */
  function FromBytes(data: seq<byte>): (r: Result<Stun, FromBytesError>)
    requires AttributesFramed(data)
    ensures |data| < HeaderSize ==> r == Err(PacketTooShort(data))
    ensures r.Ok? <==> |data| >= HeaderSize && ReadU16(data[2..4]) + HeaderSize == |data|
    ensures r.Ok? ==> r.value.header == ParseHeader(data[..HeaderSize])
                      && r.value.attributes == ParseFrom(data[HeaderSize..], 0)
                      && r.value.username == [] && r.value.password == []
  {
    if |data| < HeaderSize then Err(PacketTooShort(data))
    else
      assert data[0..HeaderSize][2..4] == data[2..4];
      assert data[0..HeaderSize] == data[..HeaderSize];
      var header := ParseHeader(data[0..HeaderSize]);
      var expected := header.messageLength + HeaderSize;
      if expected != |data| then
        Err(SizeMismatch(expected, |data|, if expected < |data| then data[expected..] else []))
      else
        assert data[HeaderSize..expected] == data[HeaderSize..];
        Ok(Stun(header, ParseFrom(data[HeaderSize..expected], 0), [], []))
  }

  /** A 20-byte header whose length field counts a framed block parses as that header and block. */
  lemma FromBytesFrame(h: seq<byte>, block: seq<byte>)
    requires |h| == HeaderSize && ReadU16(h[2..4]) == |block| && Framed(block, 0)
    ensures AttributesFramed(h + block)
    ensures FromBytes(h + block) == Ok(Stun(ParseHeader(h), ParseFrom(block, 0), [], []))
  {
    var data := h + block;
    assert data[..HeaderSize] == h && data[HeaderSize..] == block;
    assert data[2..4] == h[2..4];
  }

  /**
   * The four rejections of parsers_stun_test.go: 82 bytes of 0xaa, whose
   * length field 0xaaaa asks for 43710 bytes; the single byte 0xaa; the
   * empty input; and 82 bytes whose length field 0x0aaa asks for 2750.
   */
  lemma FromBytesRejects()
    ensures FromBytes(seq(82, i => 0xaa)) == Err(SizeMismatch(0xaaaa + HeaderSize, 82, []))
    ensures FromBytes([0xaa]) == Err(PacketTooShort([0xaa]))
    ensures FromBytes([]) == Err(PacketTooShort([]))
    ensures FromBytes([0x01, 0x13, 0x0a] + seq(79, i => 0xaa)) == Err(SizeMismatch(0x0aaa + HeaderSize, 82, []))
  {
    var d: seq<byte> := seq(82, i => 0xaa);
    assert d[2..4] == [0xaa, 0xaa];
    var d': seq<byte> := [0x01, 0x13, 0x0a] + seq(79, i => 0xaa);
    assert d'[2..4] == [0x0a, 0xaa];
  }

  /** The header of the "Allocate Error Response" packet of parsers_stun_test.go. */
  const AllocateErrorHeader: seq<byte> :=
    [0x01, 0x13, 0x00, 0x40, 0x21, 0x12, 0xa4, 0x42, 0xdc, 0xa1,
     0x2e, 0x20, 0xd9, 0x25, 0x12, 0x38, 0x50, 0x2b, 0x86, 0xac]

  /**
   * Its attribute block: ERROR-CODE 401 "Unauthorized", NONCE, REALM
   * "slack.com" with three padding bytes, and attribute 0x8022 "None".
   */
  const AllocateErrorBlock: seq<byte> :=
    [0x00, 0x09, 0x00, 0x10, 0x00, 0x00, 0x04, 0x01, 0x55, 0x6e,
     0x61, 0x75, 0x74, 0x68, 0x6f, 0x72, 0x69, 0x7a, 0x65, 0x64]
    + [0x00, 0x15, 0x00, 0x10, 0x31, 0x64, 0x39, 0x38, 0x36, 0x62,
       0x34, 0x66, 0x37, 0x36, 0x32, 0x63, 0x34, 0x36, 0x30, 0x64]
    + [0x00, 0x14, 0x00, 0x09, 0x73, 0x6c, 0x61, 0x63, 0x6b, 0x2e,
       0x63, 0x6f, 0x6d, 0xf8, 0x4f, 0x66]
    + [0x80, 0x22, 0x00, 0x04, 0x4e, 0x6f, 0x6e, 0x65]

  /** The cursor visits 0, 20, 40 and 56 and ends exactly at 64. */
  lemma AllocateErrorFramed()
    ensures var b := AllocateErrorBlock;
      && |b| == 64 && Framed(b, 0)
      && NextPos(b, 0) == 20 && NextPos(b, 20) == 40 && NextPos(b, 40) == 56 && NextPos(b, 56) == 64
  {
    var b := AllocateErrorBlock;
    assert b[58..60] == [0x00, 0x04] && Fits(b, 56) && NextPos(b, 56) == 64;
    assert Framed(b, 64) && Framed(b, 56);
    assert b[42..44] == [0x00, 0x09] && Fits(b, 40) && NextPos(b, 40) == 56;
    assert Framed(b, 40);
    assert b[22..24] == [0x00, 0x10] && Fits(b, 20) && NextPos(b, 20) == 40;
    assert Framed(b, 20);
    assert b[2..4] == [0x00, 0x10] && Fits(b, 0) && NextPos(b, 0) == 20;
  }

  /** The block holds ERROR-CODE, NONCE, REALM and 0x8022, in that order, with the lengths of their fields. */
  lemma AllocateErrorAttributes()
    ensures Framed(AllocateErrorBlock, 0)
    ensures var attrs := ParseFrom(AllocateErrorBlock, 0);
      && |attrs| == 4
      && attrs[0].typ == 0x0009 && attrs[0].length == 16
      && attrs[1].typ == 0x0015 && attrs[1].length == 16
      && attrs[2].typ == 0x0014 && attrs[2].length == 9 && attrs[2].padding == 3
      && attrs[3].typ == 0x8022 && attrs[3].length == 4
  {
    AllocateErrorList();
    AllocateErrorFields();
  }

  /** The parse of the block is the attributes at the four cursor positions. */
  lemma AllocateErrorList()
    ensures Framed(AllocateErrorBlock, 0)
    ensures var b := AllocateErrorBlock;
      Fits(b, 0) && Fits(b, 20) && Fits(b, 40) && Fits(b, 56)
      && ParseFrom(b, 0) == [AttributeAt(b, 0), AttributeAt(b, 20), AttributeAt(b, 40), AttributeAt(b, 56)]
  {
    var b := AllocateErrorBlock;
    AllocateErrorFramed();
    assert ParseFrom(b, 56) == [AttributeAt(b, 56)];
    assert ParseFrom(b, 40) == [AttributeAt(b, 40), AttributeAt(b, 56)];
    assert ParseFrom(b, 20) == [AttributeAt(b, 20), AttributeAt(b, 40), AttributeAt(b, 56)];
  }

  /** The type, length and padding read at each cursor position. */
  lemma AllocateErrorFields()
    ensures var b := AllocateErrorBlock;
      && |b| == 64 && Fits(b, 0) && Fits(b, 20) && Fits(b, 40) && Fits(b, 56)
      && AttributeAt(b, 0).typ == 0x0009 && AttributeAt(b, 0).length == 16
      && AttributeAt(b, 20).typ == 0x0015 && AttributeAt(b, 20).length == 16
      && AttributeAt(b, 40).typ == 0x0014 && AttributeAt(b, 40).length == 9 && AttributeAt(b, 40).padding == 3
      && AttributeAt(b, 56).typ == 0x8022 && AttributeAt(b, 56).length == 4
  {
    AllocateErrorFirstFields();
    AllocateErrorLastFields();
  }

  /** ERROR-CODE at 0 and NONCE at 20. */
  lemma AllocateErrorFirstFields()
    ensures var b := AllocateErrorBlock;
      && |b| == 64 && Fits(b, 0) && Fits(b, 20)
      && AttributeAt(b, 0).typ == 0x0009 && AttributeAt(b, 0).length == 16
      && AttributeAt(b, 20).typ == 0x0015 && AttributeAt(b, 20).length == 16
  {
    HeadAt(AllocateErrorBlock, 0);
    HeadAt(AllocateErrorBlock, 20);
  }

  /** REALM at 40, padded by 3, and 0x8022 at 56. */
  lemma AllocateErrorLastFields()
    ensures var b := AllocateErrorBlock;
      && |b| == 64 && Fits(b, 40) && Fits(b, 56)
      && AttributeAt(b, 40).typ == 0x0014 && AttributeAt(b, 40).length == 9 && AttributeAt(b, 40).padding == 3
      && AttributeAt(b, 56).typ == 0x8022 && AttributeAt(b, 56).length == 4
  {
    HeadAt(AllocateErrorBlock, 40);
    HeadAt(AllocateErrorBlock, 56);
  }

  /** The type and length fields of the attribute at `pos`, byte by byte. */
  lemma HeadAt(b: seq<byte>, pos: nat)
    requires pos + 4 <= |b|
    ensures ReadU16(b[pos..pos + 2]) == b[pos] as int * 0x100 + b[pos + 1] as int
    ensures ReadU16(b[pos + 2..pos + 4]) == b[pos + 2] as int * 0x100 + b[pos + 3] as int
  {
  }

  /**
   * The "Allocate Error Response" vector of TestFromBytes parses: class 3,
   * method 3, a length field of 64 matching its block, and the attributes
   * of AllocateErrorAttributes.
   */
  lemma FromBytesAllocateError()
    ensures AttributesFramed(AllocateErrorHeader + AllocateErrorBlock)
    ensures var r := FromBytes(AllocateErrorHeader + AllocateErrorBlock);
      && r.Ok? && r.value.header.messageType == MessageType(3, 3)
      && r.value.header.messageLength == 64 && r.value.header.transactionId == AllocateErrorHeader[8..]
      && r.value.attributes == ParseFrom(AllocateErrorBlock, 0)
  {
    var h, b := AllocateErrorHeader, AllocateErrorBlock;
    AllocateErrorAttributes();
    assert |b| == 64 && h[2..4] == [0x00, 0x40];
    FromBytesFrame(h, b);
    assert h[0..2] == [0x01, 0x13];
    ParseMessageTypeExample();
  }

  // The uint16 cursor of parsers_stun.go.

  /**
   * The loop's cursor after one attribute, as parsers_stun.go computes it:
   * `bufPos` is a uint16, so adding the padding can wrap to 0.
   */
  function NextPosU16(b: seq<byte>, pos: u16): (next: u16)
    requires Fits(b, pos) && |b| < 0x1_0000
    ensures NextPos(b, pos) < 0x1_0000 ==> next == NextPos(b, pos)
    ensures NextPos(b, pos) >= 0x1_0000 ==> next == 0
  {
    var e: u16 := pos + 4 + ReadU16(b[pos + 2..pos + 4]);
    if e % 4 != 0 then ToU16(e + (4 - e % 4)) else e
  }

  /**
   * A 65535-byte attribute block holding one attribute of Length 65531: the
   * value ends at 65535, the padding of 1 wraps the uint16 cursor to 0,
   * and 0 is below the block length, so the loop restarts from the first
   * attribute in the same state and never ends.
   */
  lemma CursorWrapsToStart()
    ensures var b := [0x00, 0x01, 0xff, 0xfb] + Zeros(65531);
      && |b| == 65535 && Fits(b, 0) && NextPosU16(b, 0) == 0 && 0 < |b|
  {
    var b := [0x00, 0x01, 0xff, 0xfb] + Zeros(65531);
    assert b[2..4] == [0xff, 0xfb];
  }

  /**
   * The wrap can only happen at the end of a block of at least 65533 bytes:
   * below that the uint16 cursor and the unbounded one agree.
   */
  lemma CursorAgreesBelowWrap(b: seq<byte>, pos: u16)
    requires Fits(b, pos) && |b| <= 0xfffc
    ensures NextPosU16(b, pos) == NextPos(b, pos)
  {
  }
}
