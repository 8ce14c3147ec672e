/**
 * internal/types_stun.go: the STUN header, message type, attribute and
 * ERROR-CODE representations of RFC 5389 with their encoders and name
 * tables.
 */
module TypesStun {
  import opened Bytes
  import opened Helper
  import opened HelpersStun
  import opened Text
  import TypesTurn
  import TypesTurnTcp

  const HeaderSize: nat := 20
  const MessageIntegritySize: u16 := 20

  /** The fixed magic cookie of section 6 of RFC 5389. */
  const MagicCookie: seq<byte> := [0x21, 0x12, 0xa4, 0x42]

  /** The message type: a 2-bit class (carried in a uint8) and a method (uint16). */
  datatype MessageType = MessageType(msgClass: byte, msgMethod: u16)

  const MsgTypeClassRequest: byte := 0x00
  const MsgTypeClassIndication: byte := 0x01
  const MsgTypeClassSuccess: byte := 0x02
  const MsgTypeClassError: byte := 0x03

  const MsgTypeClassNames: map<byte, string> := map[
    MsgTypeClassRequest := "Request",
    MsgTypeClassIndication := "Indication",
    MsgTypeClassSuccess := "Success Response",
    MsgTypeClassError := "Error Response"
  ]

  const MsgTypeMethodBinding: u16 := 0x01

  const MsgTypeMethodNames: map<u16, string> := map[MsgTypeMethodBinding := "Binding"]

  /**
   * toUint16: class bit 1 moves to 0x0100, class bit 0 to 0x0010, and the
   * method is masked with 0x3EEF without being shifted. The three parts
   * occupy disjoint bits, so the bitwise or is a sum.
   */
  function ToUint16(m: MessageType): (r: u16)
    ensures r <= 0x3fff
    ensures (r / 0x10) % 2 == m.msgClass % 2 && (r / 0x100) % 2 == (m.msgClass / 2) % 2
    ensures r % 0x10 == m.msgMethod % 0x10
    ensures (r / 0x20) % 8 == (m.msgMethod / 0x20) % 8 && (r / 0x200) % 0x20 == (m.msgMethod / 0x200) % 0x20
    ensures m.msgMethod < 0x10 ==> r == ((m.msgClass / 2) % 2) * 0x100 + (m.msgClass % 2) * 0x10 + m.msgMethod
  {
    var c0, c1 := m.msgClass % 2, (m.msgClass / 2) % 2;
    var m0, m1, m2 := m.msgMethod % 0x10, (m.msgMethod / 0x20) % 8, (m.msgMethod / 0x200) % 0x20;
    PackedFields(c0, c1, m0, m1, m2);
    c1 * 0x100 + c0 * 0x10 + m0 + m1 * 0x20 + m2 * 0x200
  }

  /** Where each field lands in the packed type value. */
  lemma PackedFields(c0: nat, c1: nat, m0: nat, m1: nat, m2: nat)
    requires c0 < 2 && c1 < 2 && m0 < 0x10 && m1 < 8 && m2 < 0x20
    ensures var r := c1 * 0x100 + c0 * 0x10 + m0 + m1 * 0x20 + m2 * 0x200;
      && r % 0x10 == m0 && (r / 0x10) % 2 == c0 && (r / 0x100) % 2 == c1
      && (r / 0x20) % 8 == m1 && (r / 0x200) % 0x20 == m2
  {
    var r := c1 * 0x100 + c0 * 0x10 + m0 + m1 * 0x20 + m2 * 0x200;
    DivModOf(r, 0x10, c1 * 0x10 + c0 + 2 * m1 + 0x20 * m2, m0);
    DivModOf(c1 * 0x10 + c0 + 2 * m1 + 0x20 * m2, 2, c1 * 8 + m1 + 0x10 * m2, c0);
    DivModOf(r, 0x100, c1 + 2 * m2, c0 * 0x10 + m0 + m1 * 0x20);
    DivModOf(c1 + 2 * m2, 2, m2, c1);
    DivModOf(r, 0x20, m1 + 8 * c1 + 0x10 * m2, m0 + 0x10 * c0);
    DivModOf(m1 + 8 * c1 + 0x10 * m2, 8, c1 + 2 * m2, m1);
    DivModOf(r, 0x200, m2, m0 + 0x10 * c0 + 0x20 * m1 + 0x100 * c1);
  }

  /** MessageType.Serialize: the 2-byte big-endian form of ToUint16. */
  function SerializeType(m: MessageType): (r: seq<byte>)
    ensures |r| == 2 && ReadU16(r) == ToUint16(m)
  {
    PutUint16(ToUint16(m))
  }

  /** The two encodings named in section 6 of RFC 5389: Binding request and Binding success. */
  lemma BindingTypeVectors()
    ensures SerializeType(MessageType(MsgTypeClassRequest, MsgTypeMethodBinding)) == [0x00, 0x01]
    ensures SerializeType(MessageType(MsgTypeClassSuccess, MsgTypeMethodBinding)) == [0x01, 0x01]
  {
  }

  /** A TLV attribute; `padding` records the alignment bytes the parser skipped. */
  datatype Attribute = Attribute(typ: u16, length: u16, value: seq<byte>, padding: u16)

  /** The empty Attribute{} that a failed lookup returns. */
  const EmptyAttribute := Attribute(0, 0, [], 0)

  const AttrMappedAddress: u16 := 0x0001
  const AttrUsername: u16 := 0x0006
  const AttrMessageIntegrity: u16 := 0x0008
  const AttrErrorCode: u16 := 0x0009
  const AttrUnknownAttributes: u16 := 0x000a
  const AttrRealm: u16 := 0x0014
  const AttrNonce: u16 := 0x0015
  const AttrRequestedAddressFamily: u16 := 0x0017
  const AttrXorMappedAddress: u16 := 0x0020
  const AttrSoftware: u16 := 0x8022
  const AttrAlternateServer: u16 := 0x8023
  const AttrFingerprint: u16 := 0x8028

  const AttrNames: map<u16, string> := map[
    AttrMappedAddress := "MAPPED-ADDRESS",
    AttrUsername := "USERNAME",
    AttrMessageIntegrity := "MESSAGE-INTEGRITY",
    AttrErrorCode := "ERROR-CODE",
    AttrUnknownAttributes := "UNKNOWN-ATTRIBUTES",
    AttrRealm := "REALM",
    AttrNonce := "NONCE",
    AttrRequestedAddressFamily := "REQUESTED-ADDRESS-FAMILY",
    AttrXorMappedAddress := "XOR-MAPPED-ADDRESS",
    AttrSoftware := "SOFTWARE",
    AttrAlternateServer := "ALTERNATE-SERVER",
    AttrFingerprint := "FINGERPRINT"
  ]

  const RequestedTransportTcp: u32 := 0x06
  const RequestedTransportUdp: u32 := 0x11

  const RequestedTransportNames: map<u32, string> := map[
    RequestedTransportTcp := "TCP",
    RequestedTransportUdp := "UDP"
  ]

  /** The Length that Attribute.Serialize writes: a zero Length is replaced by uint16(len(Value)). */
  function EffectiveLength(a: Attribute): (l: u16)
    ensures a.length != 0 ==> l == a.length
    ensures a.length == 0 && |a.value| < 0x1_0000 ==> l == |a.value|
  {
    if a.length == 0 then ToU16(|a.value|) else a.length
  }

  /**
   * Attribute.Serialize: 2-byte type, 2-byte length, the value, then zero
   * bytes up to a multiple of 4. A non-zero Length is written unchanged
   * even when it disagrees with the value.
   */
  function SerializeAttribute(a: Attribute): (r: seq<byte>)
    ensures |r| == 4 + |a.value| + PadLength(4 + |a.value|) && |r| % 4 == 0
    ensures ReadU16(r[0..2]) == a.typ && ReadU16(r[2..4]) == EffectiveLength(a)
    ensures r[4..4 + |a.value|] == a.value
    ensures forall i :: 4 + |a.value| <= i < |r| ==> r[i] == 0
  {
    var buf := PutUint16(a.typ) + PutUint16(EffectiveLength(a)) + a.value;
    assert buf[0..2] == PutUint16(a.typ) && buf[2..4] == PutUint16(EffectiveLength(a));
    assert buf[4..] == a.value;
    Padding(buf)
  }

  /** The attribute block Stun.Serialize builds: each attribute serialized, in list order. */
  function SerializeAttributes(attrs: seq<Attribute>): (r: seq<byte>)
    ensures |r| % 4 == 0
    ensures r == [] <==> |attrs| == 0
  {
    if |attrs| == 0 then []
    else
      var x, rest := SerializeAttribute(attrs[0]), SerializeAttributes(attrs[1..]);
      assert |x + rest| == |x| + |rest| && |x| >= 4;
      DivModOf(|x| + |rest|, 4, |x| / 4 + |rest| / 4, 0);
      x + rest
  }

  /** Serializing one more attribute appends its bytes. */
  lemma {:induction false} SerializeAttributesAppend(attrs: seq<Attribute>, a: Attribute)
    ensures SerializeAttributes(attrs + [a]) == SerializeAttributes(attrs) + SerializeAttribute(a)
  {
    if |attrs| > 0 {
      assert (attrs + [a])[1..] == attrs[1..] + [a];
      SerializeAttributesAppend(attrs[1..], a);
    } else {
      assert attrs + [a] == [a];
    }
  }

  /** The ERROR-CODE attribute contents: a numeric code and a reason phrase (as bytes). */
  datatype Error = Error(code: u16, text: seq<byte>)

  const ErrorTryAlternate: u16 := 300
  const ErrorBadRequest: u16 := 400
  const ErrorUnauthorized: u16 := 401
  const ErrorUnknownAttribute: u16 := 420
  const ErrorStaleNonce: u16 := 438
  const ErrorAddressFamilyNotSupported: u16 := 440
  const ErrorPeerAddressFamilyMissmatch: u16 := 443
  const ErrorServerError: u16 := 500

  /** errorNames (also referred to as StunErrorNames). */
  const ErrorNames: map<u16, string> := map[
    ErrorTryAlternate := "Try Alternate",
    ErrorBadRequest := "Bad Request",
    ErrorUnauthorized := "Unauthorized",
    ErrorUnknownAttribute := "Unknown Attribute",
    ErrorStaleNonce := "Stale Nonce",
    ErrorAddressFamilyNotSupported := "Address Family not supported",
    ErrorPeerAddressFamilyMissmatch := "Peer Address Family Missmatch",
    ErrorServerError := "Server Error"
  ]

  /** The reason used when the server sent none: STUN, then TURN, then TURN-TCP table. */
  function FallbackErrorText(code: u16): (s: string)
    ensures code in ErrorNames ==> s == ErrorNames[code]
    ensures code !in ErrorNames && code in TypesTurn.TurnErrorNames ==> s == TypesTurn.TurnErrorNames[code]
    ensures code !in ErrorNames && code !in TypesTurn.TurnErrorNames && code in TypesTurnTcp.TurnTcpErrorNames
            ==> s == TypesTurnTcp.TurnTcpErrorNames[code]
    ensures code !in ErrorNames && code !in TypesTurn.TurnErrorNames && code !in TypesTurnTcp.TurnTcpErrorNames
            ==> s == "Invalid Error"
  {
    if code in ErrorNames then ErrorNames[code]
    else if code in TypesTurn.TurnErrorNames then TypesTurn.TurnErrorNames[code]
    else if code in TypesTurnTcp.TurnTcpErrorNames then TypesTurnTcp.TurnTcpErrorNames[code]
    else "Invalid Error"
  }

  /**
   * ParseError: the code is byte 2 times 100 plus byte 3 (byte 2 taken
   * whole, without the 3-bit class mask), the reason is everything from
   * offset 4, and a blank reason is replaced by a table name.
   */
  function ParseError(buf: seq<byte>): (e: Error)
    requires |buf| >= 4
    ensures e.code == buf[2] as int * 100 + buf[3]
    ensures !IsBlankUtf8(buf[4..]) ==> e.text == buf[4..]
    ensures IsBlankUtf8(buf[4..]) ==> e.text == Ascii(FallbackErrorText(e.code))
  {
    var code := buf[2] as int * 100 + buf[3];
    if IsBlankUtf8(buf[4..]) then Error(code, Ascii(FallbackErrorText(code)))
    else Error(code, buf[4..])
  }

  /** The ERROR-CODE value section 15.6 of RFC 5389 lays out: reserved zeros, class, number, reason. */
  function EncodeError(code: u16, reason: seq<byte>): (r: seq<byte>)
    requires code < 0x100 * 100
  {
    [0, 0, code / 100, code % 100] + reason
  }

  /** ParseError undoes EncodeError for every code below 25600 and every non-blank reason. */
  lemma ParseEncodeError(code: u16, reason: seq<byte>)
    requires code < 0x100 * 100
    requires !IsBlankUtf8(reason)
    ensures ParseError(EncodeError(code, reason)) == Error(code, reason)
  {
    assert EncodeError(code, reason)[4..] == reason;
  }

  /** The decoding of section 15.6 of RFC 5389: class from the low 3 bits of byte 2. */
  function RfcErrorCode(buf: seq<byte>): nat
    requires |buf| >= 4
  {
    (buf[2] as int % 8) * 100 + buf[3]
  }

  /** ParseError agrees with the RFC decoding exactly when the reserved bits of byte 2 are zero. */
  lemma ParseErrorCodeVsRfc(buf: seq<byte>)
    requires |buf| >= 4
    ensures ParseError(buf).code == RfcErrorCode(buf) <==> buf[2] < 8
  {
  }

  /** A byte string starting with an ASCII letter is not blank. */
  lemma LetterNotBlank(b: seq<byte>)
    requires |b| > 0 && (0x41 <= b[0] <= 0x5a || 0x61 <= b[0] <= 0x7a)
    ensures !IsBlankUtf8(b)
  {
  }

  predicate StartsWithLetter(s: string)
  {
    |s| > 0 && (('A' <= s[0] <= 'Z') || ('a' <= s[0] <= 'z'))
  }

  /** Every fallback reason starts with a letter. */
  lemma FallbackStartsWithLetter(code: u16)
    ensures StartsWithLetter(FallbackErrorText(code))
  {
  }

  /** The reason ParseError returns is never blank: either the server's text or a table name. */
  lemma ParseErrorTextNotBlank(buf: seq<byte>)
    requires |buf| >= 4
    ensures !IsBlankUtf8(ParseError(buf).text)
  {
    if IsBlankUtf8(buf[4..]) {
      var s := FallbackErrorText(ParseError(buf).code);
      FallbackStartsWithLetter(ParseError(buf).code);
      LetterNotBlank(Ascii(s));
    }
  }

  /** The three error tables share no code, so the order ParseError consults them in does not matter. */
  lemma ErrorTablesDisjoint()
    ensures ErrorNames.Keys !! TypesTurn.TurnErrorNames.Keys
    ensures ErrorNames.Keys !! TypesTurnTcp.TurnTcpErrorNames.Keys
    ensures TypesTurn.TurnErrorNames.Keys !! TypesTurnTcp.TurnTcpErrorNames.Keys
  {
  }

  /** The 20-byte header: message type, message length and transaction ID. */
  datatype Header = Header(messageType: MessageType, messageLength: u16, transactionId: seq<byte>)

  /** A STUN message together with the credentials used to authenticate it. */
  datatype Stun = Stun(header: Header, attributes: seq<Attribute>, username: seq<byte>, password: seq<byte>)
}
