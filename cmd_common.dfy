/**
 * What the option validators of the files under internal/cmd share: each is an
 * if-chain that returns the message of its first failing check, and
 * every one of them starts with the same three server checks; most go on
 * with the same username, secret and logger checks. A Go `*logrus.Logger`
 * is modelled by whether it is non-nil.
 */
module CmdCommon {
  import opened Results
  import opened Bytes
  import opened Text
  import opened TypesStun
  import opened TypesTurn
  import opened StunCodec
  import opened RequestsTurn

  const ErrTurnServer := "need a valid turnserver"
  const ErrServerPort := "turnserver needs a port"
  const ErrProtocol := "protocol needs to be either tcp or udp"
  const ErrUsername := "please supply a username"
  const ErrPassword := "please supply a password"
  const ErrLogger := "please supply a valid logger"

  /** strings.Contains(s, ":"). */
  predicate HasPort(s: string)
  {
    ':' in s
  }

  /** The two transports the tool speaks to a TURN server. */
  predicate KnownProtocol(p: string)
  {
    p == "tcp" || p == "udp"
  }

  /**
   * The three server checks, in order: a server is given, it names a port,
   * and the protocol is tcp or udp. Each message is returned exactly when
   * its check is the first to fail.
   */
  function ServerCheck(turnServer: string, protocol: string): (r: Option<string>)
    ensures r == Some(ErrTurnServer) <==> turnServer == ""
    ensures r == Some(ErrServerPort) <==> turnServer != "" && !HasPort(turnServer)
    ensures r == Some(ErrProtocol) <==> HasPort(turnServer) && !KnownProtocol(protocol)
    ensures r == None <==> HasPort(turnServer) && KnownProtocol(protocol)
    ensures r.Some? ==> r.value in {ErrTurnServer, ErrServerPort, ErrProtocol}
  {
    if turnServer == "" then Some(ErrTurnServer)
    else if !HasPort(turnServer) then Some(ErrServerPort)
    else if !KnownProtocol(protocol) then Some(ErrProtocol)
    else None
  }

  /**
   * The six checks most validators run first: the server checks, then a
   * username, then a password (brute.go checks its password file here with
   * the same message), then a logger.
   */
  function CommonCheck(turnServer: string, protocol: string, username: seq<byte>, secret: seq<byte>, hasLog: bool): (r: Option<string>)
    ensures ServerCheck(turnServer, protocol).Some? ==> r == ServerCheck(turnServer, protocol)
    ensures r == Some(ErrUsername) <==> ServerCheck(turnServer, protocol).None? && username == []
    ensures r == Some(ErrPassword) <==> ServerCheck(turnServer, protocol).None? && username != [] && secret == []
    ensures r == Some(ErrLogger) <==> ServerCheck(turnServer, protocol).None? && username != [] && secret != [] && !hasLog
    ensures r == None <==> ServerCheck(turnServer, protocol).None? && username != [] && secret != [] && hasLog
    ensures r.Some? ==> r.value in {ErrTurnServer, ErrServerPort, ErrProtocol, ErrUsername, ErrPassword, ErrLogger}
  {
    var server := ServerCheck(turnServer, protocol);
    if server.Some? then server
    else if username == [] then Some(ErrUsername)
    else if secret == [] then Some(ErrPassword)
    else if !hasLog then Some(ErrLogger)
    else None
  }

  /** helper.PrivateRanges (internal/helper/iphelper.go). */
  const PrivateRanges: seq<string> := ["127.0.0.1/32", "10.0.0.0/8", "172.16.0.0/12", "192.168.0.0/16"]

  /** The ranges the UDP and TCP scanners walk: the ones given, or the private ranges when none are. */
  function ScanInput(ips: seq<string>): (r: seq<string>)
    ensures |r| > 0
    ensures |ips| > 0 ==> r == ips
    ensures |ips| == 0 ==> r == PrivateRanges
  {
    if |ips| == 0 then PrivateRanges else ips
  }

  /** A failed network step; helper.ErrTimeout is singled out because several scans treat it as success. */
  datatype NetError = Timeout | Failure(message: string)

  /** `if errors.Is(err, helper.ErrTimeout) { return nil }; return err`. */
  function IgnoreTimeout(err: NetError): (r: Option<NetError>)
    ensures r.None? <==> err.Timeout?
    ensures r.Some? ==> r.value == err
  {
    if err.Timeout? then None else Some(err)
  }

  /** One request written and its response read, or the error that ended the exchange (connecting included). */
  datatype Exchange = Replied(response: Stun) | ExchangeFailed(message: string)

  /** The class of a response's message type. */
  function ClassOf(s: Stun): (c: byte)
    ensures c == s.header.messageType.msgClass
  {
    s.header.messageType.msgClass
  }

  /** Go's `resp.GetAttribute(AttrErrorCode).Value[4:]` does not panic. */
  predicate ReasonReadable(resp: Stun)
  {
    |GetAttribute(resp, AttrErrorCode).value| >= 4
  }

  /**
   * The undecoded reason phrase the commands read from a failed response:
   * the first ERROR-CODE value from offset 4. Go panics when that value is
   * shorter than 4 bytes, which includes a response without ERROR-CODE, so
   * such a response must have one; where the phrase is not blank it is the
   * text ParseError reports.
   */
  function ErrorReason(resp: Stun): (r: seq<byte>)
    requires ReasonReadable(resp)
    ensures FindAttribute(resp.attributes, AttrErrorCode).Some?
    ensures !IsBlankUtf8(r) ==> r == ParseError(GetAttribute(resp, AttrErrorCode).value).text
  {
    GetAttribute(resp, AttrErrorCode).value[4..]
  }

  /** A server that encodes its ERROR-CODE as section 15.6 of RFC 5389 lays out has its reason phrase read back verbatim. */
  lemma ErrorReasonOfEncoded(resp: Stun, code: u16, reason: seq<byte>)
    requires code < 0x100 * 100
    requires exists k :: 0 <= k < |resp.attributes| && resp.attributes[k].typ == AttrErrorCode
    requires GetAttribute(resp, AttrErrorCode).value == EncodeError(code, reason)
    ensures ReasonReadable(resp) && ErrorReason(resp) == reason
  {
    assert EncodeError(code, reason)[4..] == reason;
  }

  /**
   * The authenticated Allocate the commands send after an unauthenticated
   * one was challenged: the realm and nonce are copied from the challenge,
   * empty when it carries none.
   */
  function AnswerChallenge(transactionId: seq<byte>, username: seq<byte>, password: seq<byte>,
                           challenge: Stun, transport: u32, family: byte): (s: Stun)
    ensures s.header.messageType == MessageType(MsgTypeClassRequest, MsgTypeMethodAllocate)
    ensures |s.attributes| >= 4 && s.attributes[0].value == PutU32LE(transport)
    ensures s.attributes[1..4] == Credentials(username, GetAttribute(challenge, AttrRealm).value, GetAttribute(challenge, AttrNonce).value)
    ensures Authenticated(s.attributes)
  {
    AllocateRequestAuth(transactionId, username, password, GetAttribute(challenge, AttrNonce).value,
                        GetAttribute(challenge, AttrRealm).value, transport, family)
  }
}
