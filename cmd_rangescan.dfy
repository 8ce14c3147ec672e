/**
 * internal/cmd/rangescan.go: probe a fixed list of special-purpose
 * addresses through the TURN server, first by setting up a UDP relay to
 * each, then by asking the server to open a TCP connection to each, always
 * to port 80. The network results of probe `i` are given as parameters.
 */
module CmdRangeScan {
  import opened Results
  import opened Bytes
  import opened TypesStun
  import opened TypesTurn
  import opened HelpersTurn
  import opened StunCodec
  import opened RequestsStun
  import opened RequestsTurn
  import opened RequestsTurnTcp
  import opened CmdCommon

  datatype RangeScanOpts = RangeScanOpts(
    turnServer: string, protocol: string, username: seq<byte>, password: seq<byte>,
    useTls: bool, timeout: nat, hasLog: bool)

  /** RangeScanOpts.Validate: exactly the six common checks. */
  function Validate(opts: RangeScanOpts): (r: Option<string>)
    ensures r.None? <==> HasPort(opts.turnServer) && KnownProtocol(opts.protocol)
                         && opts.username != [] && opts.password != [] && opts.hasLog
    ensures r.Some? ==> r == CommonCheck(opts.turnServer, opts.protocol, opts.username, opts.password, opts.hasLog)
  {
    CommonCheck(opts.turnServer, opts.protocol, opts.username, opts.password, opts.hasLog)
  }

  /** "::", the IPv6 unspecified address. */
  const Ipv6Any: seq<byte> := [0, 0, 0, 0, 0, 0, 0, 0, 0, 0, 0, 0, 0, 0, 0, 0]
  /** "::1", the IPv6 loopback address. */
  const Ipv6Loopback: seq<byte> := [0, 0, 0, 0, 0, 0, 0, 0, 0, 0, 0, 0, 0, 0, 0, 1]

  /**
   * The scan targets in their order, as the octets netip.ParseAddr gives
   * for them: unspecified, loopback, private, link-local, multicast, shared
   * address space, IETF protocol assignments, the three TEST-NETs,
   * benchmarking, reserved, broadcast and the cloud metadata address.
   */
  const Ranges: seq<seq<byte>> := [
    [0, 0, 0, 0], Ipv6Any,
    [127, 0, 0, 1], [127, 0, 0, 8], [127, 255, 255, 254], Ipv6Loopback,
    [10, 0, 0, 1], [10, 255, 255, 254], [172, 16, 0, 1], [172, 31, 255, 254], [192, 168, 0, 1], [192, 168, 255, 254],
    [169, 254, 0, 1], [169, 254, 254, 255],
    [224, 0, 0, 1], [239, 255, 255, 254],
    [100, 64, 0, 0], [100, 127, 255, 254],
    [192, 0, 0, 1], [192, 0, 0, 254],
    [192, 0, 2, 1], [192, 0, 2, 254],
    [198, 18, 0, 1], [198, 19, 255, 254],
    [198, 51, 100, 1], [198, 51, 100, 254],
    [203, 0, 113, 1], [203, 0, 113, 254],
    [240, 0, 0, 1],
    [255, 255, 255, 255],
    [169, 254, 169, 254]
  ]

  /** The port every probe targets. */
  const TargetPort: u16 := 80

  /** Every target is a valid address, so the parse error of the scan loops never fires; exactly two are IPv6. */
  lemma RangesValid()
    ensures |Ranges| == 31
    ensures forall i :: 0 <= i < |Ranges| ==> Is4(Ranges[i]) || Is6(Ranges[i])
    ensures forall i :: 0 <= i < |Ranges| ==> (Is6(Ranges[i]) <==> i == 1 || i == 5)
  {
  }

  /** The REQUESTED-ADDRESS-FAMILY of a TCP probe: IPv6 for an IPv6 target, none otherwise. */
  function Family(target: seq<byte>): (f: byte)
    ensures f == AllocateProtocolIPv6 <==> Is6(target)
    ensures f != AllocateProtocolIPv6 ==> f == AllocateProtocolIgnore
  {
    if Is6(target) then AllocateProtocolIPv6 else AllocateProtocolIgnore
  }

  /** Why a probe failed; the wording of Go's messages is not modelled. */
  datatype ScanError =
    | NetFailed(message: string)
    | AllocateSendFailed(attempt: nat, message: string)
    | NotChallenged
    | AllocateRefused(reason: seq<byte>)
    | RequestFailed(error: RequestError)
    | ConnectSendFailed(message: string)
    | ConnectRefused(reason: seq<byte>)

  /**
   * What the network does during one TCP probe: connecting to the server,
   * the unauthenticated and the authenticated Allocate, and the Connect
   * request.
   */
  datatype TcpTrial = TcpTrial(connect: Option<string>, challenge: Exchange, answer: Exchange, connectReply: Result<Stun, NetError>)

  /** The Error-class responses the probe reports can be printed without a Go panic. */
  predicate Readable(t: TcpTrial)
  {
    && (t.answer.Replied? && ClassOf(t.answer.response) == MsgTypeClassError ==> ErrorCodeReadable(t.answer.response))
    && (t.connectReply.Ok? && ClassOf(t.connectReply.value) == MsgTypeClassError ==> ErrorCodeReadable(t.connectReply.value))
  }

  /** The allocation went through: connected, challenged, then not refused. */
  predicate Allocated(t: TcpTrial)
  {
    && t.connect.None?
    && t.challenge.Replied? && ClassOf(t.challenge.response) == MsgTypeClassError
    && t.answer.Replied? && ClassOf(t.answer.response) != MsgTypeClassError
  }

  /**
   * scanTCP: a failed connection, send or Allocate ends the probe with an
   * error; the Connect request carries the challenge's realm and nonce; a
   * Connect that times out counts as an open port, as does any answer that
   * is not of the Error class.
   */
  function ScanTcp(transactionId: seq<byte>, username: seq<byte>, password: seq<byte>,
                   target: seq<byte>, port: u16, t: TcpTrial): (r: (bool, Option<ScanError>))
    requires Readable(t)
    ensures r.0 <==> r.1.None?
    ensures r.0 <==> Allocated(t) && (Is4(target) || Is6(target))
                      && (t.connectReply == Err(Timeout)
                          || (t.connectReply.Ok? && ClassOf(t.connectReply.value) != MsgTypeClassError))
    ensures r.1 == Some(NotChallenged) <==>
              t.connect.None? && t.challenge.Replied? && ClassOf(t.challenge.response) != MsgTypeClassError
    ensures r.1.Some? && r.1.value.RequestFailed? <==> Allocated(t) && !Is4(target) && !Is6(target)
    ensures Allocated(t) && t.connectReply.Ok? && ClassOf(t.connectReply.value) == MsgTypeClassError
              && (Is4(target) || Is6(target))
            ==> r.1 == Some(ConnectRefused(GetErrorString(t.connectReply.value)))
  {
    if t.connect.Some? then (false, Some(NetFailed(t.connect.value)))
    else if t.challenge.ExchangeFailed? then (false, Some(AllocateSendFailed(1, t.challenge.message)))
    else if ClassOf(t.challenge.response) != MsgTypeClassError then (false, Some(NotChallenged))
    else if t.answer.ExchangeFailed? then (false, Some(AllocateSendFailed(2, t.answer.message)))
    else if ClassOf(t.answer.response) == MsgTypeClassError then
      (false, Some(AllocateRefused(GetErrorString(t.answer.response))))
    else
      var realm := GetAttribute(t.challenge.response, AttrRealm).value;
      var nonce := GetAttribute(t.challenge.response, AttrNonce).value;
      match ConnectRequestAuth(transactionId, username, password, nonce, realm, target, port)
      case Err(e) => (false, Some(RequestFailed(e)))
      case Ok(_) =>
        match t.connectReply
        case Err(Timeout) => (true, None)
        case Err(Failure(m)) => (false, Some(ConnectSendFailed(m)))
        case Ok(reply) =>
          if ClassOf(reply) == MsgTypeClassError then (false, Some(ConnectRefused(GetErrorString(reply))))
          else (true, None)
  }

  /** One logged probe. */
  datatype Probe = Probe(tcp: bool, target: seq<byte>, success: bool, err: Option<ScanError>)

  /** scanUDP: the probe succeeds exactly when the relay to the target could be set up. */
  function UdpProbe(target: seq<byte>, setup: Option<string>): (p: Probe)
    ensures !p.tcp && p.target == target
    ensures p.success <==> setup.None?
    ensures setup.Some? ==> p.err == Some(NetFailed(setup.value))
  {
    Probe(false, target, setup.None?, if setup.Some? then Some(NetFailed(setup.value)) else None)
  }

  /** One TCP probe of the scan. */
  function TcpProbe(transactionId: seq<byte>, username: seq<byte>, password: seq<byte>, target: seq<byte>, t: TcpTrial): (p: Probe)
    requires Readable(t)
    ensures p.tcp && p.target == target
    ensures (p.success, p.err) == ScanTcp(transactionId, username, password, target, TargetPort, t)
  {
    var r := ScanTcp(transactionId, username, password, target, TargetPort, t);
    Probe(true, target, r.0, r.1)
  }

  /** The UDP probes of the first `n` targets, in order. */
  function UdpProbes(udpSetup: nat -> Option<string>, n: nat): (r: seq<Probe>)
    requires n <= |Ranges|
    ensures |r| == n
    ensures forall j :: 0 <= j < n ==> r[j] == UdpProbe(Ranges[j], udpSetup(j))
  {
    if n == 0 then []
    else
      var prev := UdpProbes(udpSetup, n - 1);
      var r := prev + [UdpProbe(Ranges[n - 1], udpSetup(n - 1))];
      assert forall j :: 0 <= j < n - 1 ==> r[j] == prev[j];
      r
  }

  /** The TCP probes of the first `n` targets, in order. */
  function TcpProbes(transactionId: nat -> seq<byte>, username: seq<byte>, password: seq<byte>,
                     tcp: nat -> TcpTrial, n: nat): (r: seq<Probe>)
    requires n <= |Ranges|
    requires forall i :: 0 <= i < |Ranges| ==> Readable(tcp(i))
    ensures |r| == n
    ensures forall j :: 0 <= j < n ==> r[j] == TcpProbe(transactionId(j), username, password, Ranges[j], tcp(j))
  {
    if n == 0 then []
    else
      var prev := TcpProbes(transactionId, username, password, tcp, n - 1);
      assert Readable(tcp(n - 1));
      var r := prev + [TcpProbe(transactionId(n - 1), username, password, Ranges[n - 1], tcp(n - 1))];
      assert forall j :: 0 <= j < n - 1 ==> r[j] == prev[j];
      r
  }

  /**
   * RangeScan after the options are valid: every target over UDP, then
   * every target over TCP, in the order of the list. A failed probe is
   * logged and the scan goes on; the scan never stops early.
   */
  method RangeScan(username: seq<byte>, password: seq<byte>, transactionId: nat -> seq<byte>,
                   udpSetup: nat -> Option<string>, tcp: nat -> TcpTrial)
    returns (probes: seq<Probe>, err: Option<string>)
    requires forall i :: 0 <= i < |Ranges| ==> Readable(tcp(i))
    ensures err.None?
    ensures probes == UdpProbes(udpSetup, |Ranges|) + TcpProbes(transactionId, username, password, tcp, |Ranges|)
  {
    var udp, tcpProbes;
    udp, err := ScanUdpTargets(udpSetup);
    if err.Some? {
      return;
    }
    tcpProbes, err := ScanTcpTargets(username, password, transactionId, tcp);
    probes := udp + tcpProbes;
  }

  /** The UDP loop of RangeScan: one probe per target, in order. */
  method ScanUdpTargets(udpSetup: nat -> Option<string>) returns (probes: seq<Probe>, err: Option<string>)
    ensures err.None? && probes == UdpProbes(udpSetup, |Ranges|)
  {
    RangesValid();
    probes := [];
    for i := 0 to |Ranges|
      invariant probes == UdpProbes(udpSetup, i)
    {
      var ip := Ranges[i];
      if !Is4(ip) && !Is6(ip) {
        err := Some("target is no valid ip address");
        return;
      }
      probes := probes + [UdpProbe(ip, udpSetup(i))];
    }
    err := None;
  }

  /** The TCP loop of RangeScan: one probe per target, in order. */
  method ScanTcpTargets(username: seq<byte>, password: seq<byte>, transactionId: nat -> seq<byte>, tcp: nat -> TcpTrial)
    returns (probes: seq<Probe>, err: Option<string>)
    requires forall i :: 0 <= i < |Ranges| ==> Readable(tcp(i))
    ensures err.None? && probes == TcpProbes(transactionId, username, password, tcp, |Ranges|)
  {
    RangesValid();
    probes := [];
    for i := 0 to |Ranges|
      invariant probes == TcpProbes(transactionId, username, password, tcp, i)
    {
      var ip := Ranges[i];
      if !Is4(ip) && !Is6(ip) {
        err := Some("target is no valid ip address");
        return;
      }
      probes := probes + [TcpProbe(transactionId(i), username, password, ip, tcp(i))];
    }
    err := None;
  }

  /**
   * The authenticated Allocate of a TCP probe asks for TCP, and carries a
   * REQUESTED-ADDRESS-FAMILY asking for IPv6 exactly when the target is IPv6.
   */
  lemma TcpProbeAllocate(transactionId: seq<byte>, username: seq<byte>, password: seq<byte>, challenge: Stun, target: seq<byte>)
    ensures var s := AnswerChallenge(transactionId, username, password, challenge, RequestedTransportTcp, Family(target));
      && s.attributes[0].value == PutU32LE(RequestedTransportTcp)
      && (Is6(target) ==> TypesOf(s.attributes) == [AttrRequestedTransport, AttrUsername, AttrRealm, AttrNonce, AttrRequestedAddressFamily]
                          && s.attributes[4].value == [AllocateProtocolIPv6, 0, 0, 0, 0])
      && (!Is6(target) ==> TypesOf(s.attributes) == [AttrRequestedTransport, AttrUsername, AttrRealm, AttrNonce])
  {
    var realm := GetAttribute(challenge, AttrRealm).value;
    var nonce := GetAttribute(challenge, AttrNonce).value;
    var s := AnswerChallenge(transactionId, username, password, challenge, RequestedTransportTcp, Family(target));
    assert s == AllocateRequestAuth(transactionId, username, password, nonce, realm, RequestedTransportTcp, Family(target));
    var f := FamilyAttributes(Family(target));
    if Is6(target) {
      assert s.attributes == [TransportAttribute(RequestedTransportTcp)] + Credentials(username, realm, nonce) + f;
      assert s.attributes[4] == f[0];
    } else {
      assert TypesOf(f) == [];
    }
  }
}
