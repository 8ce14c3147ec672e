/** internal/requests_turntcp.go: the TURN-TCP requests of section 4 of RFC 6062. */
module RequestsTurnTcp {
  import opened Results
  import opened Bytes
  import opened TypesStun
  import opened TypesTurn
  import opened TypesTurnTcp
  import opened HelpersTurn
  import opened ParsersStun
  import opened StunCodec
  import opened RequestsStun
  import opened RequestsTurn

  /** ConnectRequest: a single XOR-PEER-ADDRESS keyed with the request's own ID; no credentials. */
  function ConnectRequest(transactionId: seq<byte>, target: seq<byte>, port: u16): (r: Result<Stun, RequestError>)
    ensures r.Err? <==> XorAddr(target, port, transactionId).Err?
    ensures r.Err? ==> r.error == AddressError(XorAddr(target, port, transactionId).error)
    ensures r.Ok? ==> var s := r.value;
      && s.header.messageType == MessageType(MsgTypeClassRequest, MsgTypeMethodConnect)
      && s.header.transactionId == transactionId
      && TypesOf(s.attributes) == [AttrXorPeerAddress]
      && s.attributes[0].value == XorAddr(target, port, transactionId).value
      && s.username == [] && s.password == [] && !Authenticated(s.attributes)
  {
    match XorAddr(target, port, transactionId)
    case Err(e) => Err(AddressError(e))
    case Ok(targetXor) =>
      Ok(Request(transactionId, MsgTypeMethodConnect, [Attr(AttrXorPeerAddress, targetXor)], [], []))
  }

  /** ConnectRequestAuth: XOR-PEER-ADDRESS, then USERNAME, REALM, NONCE, with the credentials set. */
  function ConnectRequestAuth(transactionId: seq<byte>, username: seq<byte>, password: seq<byte>, nonce: seq<byte>,
                              realm: seq<byte>, target: seq<byte>, port: u16): (r: Result<Stun, RequestError>)
    ensures r.Err? <==> XorAddr(target, port, transactionId).Err?
    ensures r.Err? ==> r.error == AddressError(XorAddr(target, port, transactionId).error)
    ensures r.Ok? ==> var s := r.value;
      && s.header.messageType == MessageType(MsgTypeClassRequest, MsgTypeMethodConnect)
      && s.header.transactionId == transactionId
      && TypesOf(s.attributes) == [AttrXorPeerAddress, AttrUsername, AttrRealm, AttrNonce]
      && s.attributes[0].value == XorAddr(target, port, transactionId).value
      && s.attributes[1..] == Credentials(username, realm, nonce)
      && s.username == username && s.password == password && Authenticated(s.attributes)
  {
    match XorAddr(target, port, transactionId)
    case Err(e) => Err(AddressError(e))
    case Ok(targetXor) =>
      var attrs := [Attr(AttrXorPeerAddress, targetXor)] + Credentials(username, realm, nonce);
      assert attrs[1..] == Credentials(username, realm, nonce);
      assert attrs[1].typ == AttrUsername;
      Ok(Request(transactionId, MsgTypeMethodConnect, attrs, username, password))
  }

  /** ConnectionBindRequest: CONNECTION-ID carrying the given ID verbatim, then USERNAME, REALM, NONCE; it never fails. */
  function ConnectionBindRequest(transactionId: seq<byte>, connectionId: seq<byte>, username: seq<byte>, password: seq<byte>,
                                 nonce: seq<byte>, realm: seq<byte>): (s: Stun)
    ensures s.header.messageType == MessageType(MsgTypeClassRequest, MsgTypeMethodConnectionBind)
    ensures s.header.transactionId == transactionId
    ensures TypesOf(s.attributes) == [AttrConnectionId, AttrUsername, AttrRealm, AttrNonce]
    ensures s.attributes[0].value == connectionId
    ensures s.attributes[1..] == Credentials(username, realm, nonce)
    ensures s.username == username && s.password == password && Authenticated(s.attributes)
  {
    var attrs := [Attr(AttrConnectionId, connectionId)] + Credentials(username, realm, nonce);
    assert attrs[1..] == Credentials(username, realm, nonce);
    assert attrs[1].typ == AttrUsername;
    Request(transactionId, MsgTypeMethodConnectionBind, attrs, username, password)
  }

  /** Connect and ConnectionBind fit in 4 bits, so their type fields round-trip. */
  lemma TurnTcpRequestTypesRoundTrip(msgMethod: u16)
    requires msgMethod in {MsgTypeMethodConnect, MsgTypeMethodConnectionBind}
    ensures ParseMessageType(SerializeType(MessageType(MsgTypeClassRequest, msgMethod))) == MessageType(MsgTypeClassRequest, msgMethod)
  {
    TypeRoundTrip(MessageType(MsgTypeClassRequest, msgMethod));
  }

  /** Whatever the address, the authenticated Connect adds exactly the credential attributes to the plain one. */
  lemma ConnectAuthExtendsConnect(transactionId: seq<byte>, username: seq<byte>, password: seq<byte>, nonce: seq<byte>,
                                  realm: seq<byte>, target: seq<byte>, port: u16)
    ensures ConnectRequest(transactionId, target, port).Ok?
        <==> ConnectRequestAuth(transactionId, username, password, nonce, realm, target, port).Ok?
    ensures ConnectRequest(transactionId, target, port).Ok? ==>
      ConnectRequestAuth(transactionId, username, password, nonce, realm, target, port).value.attributes
      == ConnectRequest(transactionId, target, port).value.attributes + Credentials(username, realm, nonce)
  {
  }
}
