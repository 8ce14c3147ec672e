/**
 * internal/requests_turn.go: the TURN requests of RFC 5766 (Allocate,
 * Refresh, Send, CreatePermission, ChannelBind), with the
 * REQUESTED-ADDRESS-FAMILY attribute of section 4.1.1 of RFC 6156.
 * Usernames, passwords, realms and nonces are the bytes of Go strings.
 */
module RequestsTurn {
  import opened Results
  import opened Bytes
  import opened TypesStun
  import opened TypesTurn
  import opened HelpersTurn
  import opened ParsersStun
  import opened StunCodec
  import opened RequestsStun

  /** Why a builder refused: xorAddr's error, or a channel number that is not 2 bytes. */
  datatype RequestError =
    | AddressError(err: AddrError)
    | ChannelNumberLength(channelNumber: seq<byte>)

  /** USERNAME, REALM, NONCE: the attributes every authenticated request carries, in this order. */
  function Credentials(username: seq<byte>, realm: seq<byte>, nonce: seq<byte>): (r: seq<Attribute>)
    ensures TypesOf(r) == [AttrUsername, AttrRealm, AttrNonce]
    ensures r[0].value == username && r[1].value == realm && r[2].value == nonce
  {
    [Attr(AttrUsername, username), Attr(AttrRealm, realm), Attr(AttrNonce, nonce)]
  }

  /** REQUESTED-TRANSPORT: the protocol number as 4 little-endian bytes. */
  function TransportAttribute(targetProtocol: u32): (a: Attribute)
    ensures a.typ == AttrRequestedTransport && |a.value| == 4
    ensures ReadU32([a.value[3], a.value[2], a.value[1], a.value[0]]) == targetProtocol
  {
    Attr(AttrRequestedTransport, PutU32LE(targetProtocol))
  }

  /** REQUESTED-ADDRESS-FAMILY, present unless the family is the internal "ignore" value 0. */
  function FamilyAttributes(family: byte): (r: seq<Attribute>)
    ensures family == AllocateProtocolIgnore ==> r == []
    ensures family != AllocateProtocolIgnore ==>
      TypesOf(r) == [AttrRequestedAddressFamily] && r[0].value == [family, 0, 0, 0, 0]
  {
    if family != AllocateProtocolIgnore then [Attr(AttrRequestedAddressFamily, [family, 0, 0, 0, 0])] else []
  }

  /** A fresh request with the given method, attributes and credentials. */
  function Request(transactionId: seq<byte>, msgMethod: u16, attrs: seq<Attribute>, username: seq<byte>, password: seq<byte>): (s: Stun)
    ensures s.header.messageType == MessageType(MsgTypeClassRequest, msgMethod)
    ensures s.header.transactionId == transactionId
    ensures s.attributes == attrs && s.username == username && s.password == password
  {
    var s := Fresh(transactionId);
    Stun(s.header.(messageType := MessageType(MsgTypeClassRequest, msgMethod)), attrs, username, password)
  }

  /** AllocateRequest: REQUESTED-TRANSPORT, then REQUESTED-ADDRESS-FAMILY unless ignored; no credentials. */
  function AllocateRequest(transactionId: seq<byte>, targetProtocol: u32, family: byte): (s: Stun)
    ensures s.header.messageType == MessageType(MsgTypeClassRequest, MsgTypeMethodAllocate)
    ensures s.header.transactionId == transactionId
    ensures TypesOf(s.attributes) == [AttrRequestedTransport] + TypesOf(FamilyAttributes(family))
    ensures s.attributes[0].value == PutU32LE(targetProtocol)
    ensures s.username == [] && s.password == [] && !Authenticated(s.attributes)
  {
    var attrs := [TransportAttribute(targetProtocol)] + FamilyAttributes(family);
    assert TypesOf(attrs) == [AttrRequestedTransport] + TypesOf(FamilyAttributes(family));
    Request(transactionId, MsgTypeMethodAllocate, attrs, [], [])
  }

  /**
   * AllocateRequestAuth: REQUESTED-TRANSPORT, USERNAME, REALM, NONCE, then
   * REQUESTED-ADDRESS-FAMILY unless ignored; the credentials are set, so
   * Serialize adds MESSAGE-INTEGRITY.
   */
  function AllocateRequestAuth(transactionId: seq<byte>, username: seq<byte>, password: seq<byte>, nonce: seq<byte>,
                               realm: seq<byte>, targetProtocol: u32, family: byte): (s: Stun)
    ensures s.header.messageType == MessageType(MsgTypeClassRequest, MsgTypeMethodAllocate)
    ensures s.header.transactionId == transactionId
    ensures TypesOf(s.attributes)
      == [AttrRequestedTransport, AttrUsername, AttrRealm, AttrNonce] + TypesOf(FamilyAttributes(family))
    ensures s.attributes[0].value == PutU32LE(targetProtocol)
    ensures s.attributes[1..4] == Credentials(username, realm, nonce)
    ensures s.username == username && s.password == password && Authenticated(s.attributes)
  {
    var attrs := [TransportAttribute(targetProtocol)] + Credentials(username, realm, nonce) + FamilyAttributes(family);
    assert attrs[1..4] == Credentials(username, realm, nonce);
    assert TypesOf(attrs) == [AttrRequestedTransport, AttrUsername, AttrRealm, AttrNonce] + TypesOf(FamilyAttributes(family));
    assert attrs[1].typ == AttrUsername;
    Request(transactionId, MsgTypeMethodAllocate, attrs, username, password)
  }

  /** The DATA payload SendRequest carries. */
  const SendPayload: seq<byte> := Ascii("pwned by firefart\n")

  /**
   * SendRequest: class Request (not Indication), XOR-PEER-ADDRESS keyed
   * with the request's own ID, then DATA; an address xorAddr refuses is an
   * error.
   */
  function SendRequest(transactionId: seq<byte>, target: seq<byte>, port: u16): (r: Result<Stun, RequestError>)
    ensures r.Err? <==> XorAddr(target, port, transactionId).Err?
    ensures r.Err? ==> r.error == AddressError(XorAddr(target, port, transactionId).error)
    ensures r.Ok? ==> var s := r.value;
      && s.header.messageType == MessageType(MsgTypeClassRequest, MsgTypeMethodSend)
      && s.header.transactionId == transactionId
      && TypesOf(s.attributes) == [AttrXorPeerAddress, AttrData]
      && s.attributes[0].value == XorAddr(target, port, transactionId).value
      && s.attributes[1].value == SendPayload
      && s.username == [] && s.password == [] && !Authenticated(s.attributes)
  {
    match XorAddr(target, port, transactionId)
    case Err(e) => Err(AddressError(e))
    case Ok(targetXor) =>
      var attrs := [Attr(AttrXorPeerAddress, targetXor), Attr(AttrData, SendPayload)];
      Ok(Request(transactionId, MsgTypeMethodSend, attrs, [], []))
  }

  /**
   * CreatePermissionRequest: XOR-PEER-ADDRESS keyed with the request's own
   * ID, then USERNAME, REALM, NONCE; an address xorAddr refuses is an error.
   */
  function CreatePermissionRequest(transactionId: seq<byte>, username: seq<byte>, password: seq<byte>, nonce: seq<byte>,
                                   realm: seq<byte>, target: seq<byte>, port: u16): (r: Result<Stun, RequestError>)
    ensures r.Err? <==> XorAddr(target, port, transactionId).Err?
    ensures r.Err? ==> r.error == AddressError(XorAddr(target, port, transactionId).error)
    ensures r.Ok? ==> var s := r.value;
      && s.header.messageType == MessageType(MsgTypeClassRequest, MsgTypeMethodCreatePermission)
      && s.header.transactionId == transactionId
      && TypesOf(s.attributes) == [AttrXorPeerAddress, AttrUsername, AttrRealm, AttrNonce]
      && s.attributes[0].value == XorAddr(target, port, transactionId).value
      && s.attributes[1..] == Credentials(username, realm, nonce)
      && s.username == username && s.password == password && Authenticated(s.attributes)
  {
    match XorAddr(target, port, transactionId)
    case Err(e) => Err(AddressError(e))
    case Ok(targetXor) =>
      var attrs := [Attr(AttrXorPeerAddress, targetXor)] + Credentials(username, realm, nonce);
      assert attrs[1..] == Credentials(username, realm, nonce);
      assert attrs[1].typ == AttrUsername;
      Ok(Request(transactionId, MsgTypeMethodCreatePermission, attrs, username, password))
  }

  /**
   * ChannelBindRequest: the address is encoded first, so its error wins;
   * then a channel number other than 2 bytes is refused. The attributes
   * are CHANNEL-NUMBER (the number followed by two zero bytes),
   * XOR-PEER-ADDRESS, USERNAME, REALM, NONCE.
   */
  function ChannelBindRequest(transactionId: seq<byte>, username: seq<byte>, password: seq<byte>, nonce: seq<byte>,
                              realm: seq<byte>, target: seq<byte>, port: u16, channelNumber: seq<byte>): (r: Result<Stun, RequestError>)
    ensures XorAddr(target, port, transactionId).Err? ==> r == Err(AddressError(XorAddr(target, port, transactionId).error))
    ensures XorAddr(target, port, transactionId).Ok? && |channelNumber| != 2 ==> r == Err(ChannelNumberLength(channelNumber))
    ensures r.Ok? <==> XorAddr(target, port, transactionId).Ok? && |channelNumber| == 2
    ensures r.Ok? ==> var s := r.value;
      && s.header.messageType == MessageType(MsgTypeClassRequest, MsgTypeMethodChannelbind)
      && s.header.transactionId == transactionId
      && TypesOf(s.attributes) == [AttrChannelNumber, AttrXorPeerAddress, AttrUsername, AttrRealm, AttrNonce]
      && s.attributes[0].value == channelNumber + [0, 0]
      && s.attributes[1].value == XorAddr(target, port, transactionId).value
      && s.attributes[2..] == Credentials(username, realm, nonce)
      && s.username == username && s.password == password && Authenticated(s.attributes)
  {
    match XorAddr(target, port, transactionId)
    case Err(e) => Err(AddressError(e))
    case Ok(targetXor) =>
      if |channelNumber| != 2 then Err(ChannelNumberLength(channelNumber))
      else
        var attrs := [Attr(AttrChannelNumber, channelNumber + [0, 0]), Attr(AttrXorPeerAddress, targetXor)]
                     + Credentials(username, realm, nonce);
        assert attrs[2..] == Credentials(username, realm, nonce);
        assert attrs[2].typ == AttrUsername;
        Ok(Request(transactionId, MsgTypeMethodChannelbind, attrs, username, password))
  }

  /** RefreshRequest: USERNAME, REALM, NONCE only, with the credentials set. */
  function RefreshRequest(transactionId: seq<byte>, username: seq<byte>, password: seq<byte>, nonce: seq<byte>, realm: seq<byte>): (s: Stun)
    ensures s.header.messageType == MessageType(MsgTypeClassRequest, MsgTypeMethodRefresh)
    ensures s.header.transactionId == transactionId
    ensures s.attributes == Credentials(username, realm, nonce)
    ensures s.username == username && s.password == password && Authenticated(s.attributes)
  {
    var attrs := Credentials(username, realm, nonce);
    assert attrs[0].typ == AttrUsername;
    Request(transactionId, MsgTypeMethodRefresh, attrs, username, password)
  }

  /** The peer address a request carries decodes, with the request's own ID, to the target and port. */
  lemma PeerAddressDecodes(transactionId: seq<byte>, target: seq<byte>, port: u16)
    requires Is4(target) || Is6(target)
    ensures XorAddr(target, port, transactionId).Ok?
    ensures ConvertXorAddr(XorAddr(target, port, transactionId).value, transactionId) == Ok((target, port))
  {
    XorAddrRoundTrip(target, port, transactionId);
  }

  /** A UDP allocation asks for transport 17 as the bytes 11 00 00 00, as in parsers_stun_test.go. */
  lemma AllocateUdpTransport(transactionId: seq<byte>)
    ensures AllocateRequest(transactionId, RequestedTransportUdp, AllocateProtocolIgnore).attributes
      == [Attribute(AttrRequestedTransport, 0, [0x11, 0x00, 0x00, 0x00], 0)]
  {
  }

  /** Every TURN request method fits in 4 bits, so its type field round-trips. */
  lemma TurnRequestTypesRoundTrip(msgMethod: u16)
    requires msgMethod in {MsgTypeMethodAllocate, MsgTypeMethodRefresh, MsgTypeMethodSend,
                        MsgTypeMethodCreatePermission, MsgTypeMethodChannelbind}
    ensures ParseMessageType(SerializeType(MessageType(MsgTypeClassRequest, msgMethod))) == MessageType(MsgTypeClassRequest, msgMethod)
  {
    TypeRoundTrip(MessageType(MsgTypeClassRequest, msgMethod));
  }

  /**
   * An unauthenticated Allocate request with a 12-byte ID round-trips
   * through Serialize and fromBytes: the same type, ID and attributes, each
   * with its real length.
   */
  lemma AllocateRequestRoundTrip(transactionId: seq<byte>, targetProtocol: u32, family: byte, mac: Mac)
    requires |transactionId| == 12
    ensures var s := AllocateRequest(transactionId, targetProtocol, family);
      var data := SerializeSpec(s, mac).value;
      && SerializeSpec(s, mac).Ok? && AttributesFramed(data) && FromBytes(data).Ok?
      && FromBytes(data).value.header.messageType == MessageType(MsgTypeClassRequest, MsgTypeMethodAllocate)
      && FromBytes(data).value.header.transactionId == transactionId
      && TypesOf(FromBytes(data).value.attributes) == TypesOf(s.attributes)
      && FromBytes(data).value.attributes[0].value == PutU32LE(targetProtocol)
  {
    var s := AllocateRequest(transactionId, targetProtocol, family);
    UnauthenticatedLayout(s, mac);
    TurnRequestTypesRoundTrip(MsgTypeMethodAllocate);
    AllocateBlock(transactionId, targetProtocol, family);
    SerializeRoundTrip(s, mac);
    var back := FromBytes(SerializeSpec(s, mac).value).value.attributes;
    assert back == NormalizedAll(s.attributes);
    assert TypesOf(back) == TypesOf(s.attributes);
  }

  /** The attributes of an Allocate request serialize without loss, into at most 20 bytes. */
  lemma AllocateBlock(transactionId: seq<byte>, targetProtocol: u32, family: byte)
    requires |transactionId| == 12
    ensures var s := AllocateRequest(transactionId, targetProtocol, family);
      && (forall i :: 0 <= i < |s.attributes| ==> WellFormed(s.attributes[i]))
      && |AttributeBlock(s.attributes)| <= 20
  {
    var s := AllocateRequest(transactionId, targetProtocol, family);
    assert forall i :: 0 <= i < |s.attributes| ==> WellFormed(s.attributes[i]);
    var a0 := s.attributes[0];
    assert |SerializeAttribute(a0)| == 8;
    assert SerializeAttributes([a0]) == SerializeAttribute(a0) + SerializeAttributes([]) by {
      assert [a0][1..] == [];
    }
    if family != AllocateProtocolIgnore {
      var a1 := s.attributes[1];
      assert |SerializeAttribute(a1)| == 12;
      assert s.attributes == [a0] + [a1];
      SerializeAttributesAppend([a0], a1);
    } else {
      assert s.attributes == [a0];
    }
  }
}
