/**
 * internal/cmd/brutetransports.go: try every REQUESTED-TRANSPORT value
 * 0..255 with an unauthenticated, then an authenticated Allocate, and
 * report which ones the server accepts. The two exchanges of attempt `i`
 * are given as parameters.
 */
module CmdBruteTransports {
  import opened Results
  import opened Bytes
  import opened TypesStun
  import opened TypesTurn
  import opened StunCodec
  import opened RequestsStun
  import opened RequestsTurn
  import opened CmdCommon

  datatype BruteTransportOpts = BruteTransportOpts(
    turnServer: string, protocol: string, username: seq<byte>, password: seq<byte>,
    useTls: bool, timeout: nat, hasLog: bool)

  /** BruteTransportOpts.Validate: exactly the six common checks. */
  function Validate(opts: BruteTransportOpts): (r: Option<string>)
    ensures r.None? <==> HasPort(opts.turnServer) && KnownProtocol(opts.protocol)
                         && opts.username != [] && opts.password != [] && opts.hasLog
    ensures r.Some? ==> r == CommonCheck(opts.turnServer, opts.protocol, opts.username, opts.password, opts.hasLog)
  {
    CommonCheck(opts.turnServer, opts.protocol, opts.username, opts.password, opts.hasLog)
  }

  /** The transport numbers tried, in order. */
  const Transports: nat := 256

  datatype TransportKind = TcpDefault | UdpDefault | NonStandard

  /** How an accepted transport is reported: 6 is TCP, 17 is UDP, anything else is non-standard. */
  function KindOf(transport: u32): (k: TransportKind)
    ensures k == TcpDefault <==> transport == RequestedTransportTcp
    ensures k == UdpDefault <==> transport == RequestedTransportUdp
  {
    if transport == RequestedTransportTcp then TcpDefault
    else if transport == RequestedTransportUdp then UdpDefault
    else NonStandard
  }

  /** One line of the report. */
  datatype Report =
    | Accepted(transport: nat, kind: TransportKind)
    | Refused(transport: nat, reason: seq<byte>, unexpectedClass: bool)

  /** Both exchanges of one attempt: the challenge, then the authenticated Allocate. */
  datatype Attempt = Attempt(challenge: Exchange, answer: Exchange)

  predicate Broken(a: Attempt)
  {
    a.challenge.ExchangeFailed? || a.answer.ExchangeFailed?
  }

  /** An attempt whose failed answer can be read without a Go panic. */
  predicate Readable(a: Attempt)
  {
    Broken(a) || ClassOf(a.answer.response) == MsgTypeClassSuccess || ReasonReadable(a.answer.response)
  }

  /**
   * The report for transport `i` once both exchanges went through: a
   * Success-class answer is an accepted transport classified by KindOf;
   * anything else is refused with the ERROR-CODE reason, and the class is
   * flagged when it is not Error either.
   */
  function Classify(i: nat, answer: Stun): (r: Report)
    requires i < Transports
    requires ClassOf(answer) != MsgTypeClassSuccess ==> ReasonReadable(answer)
    ensures r.transport == i
    ensures r.Accepted? <==> ClassOf(answer) == MsgTypeClassSuccess
    ensures r.Accepted? ==> r.kind == KindOf(i)
    ensures r.Refused? ==> r.reason == ErrorReason(answer) && (r.unexpectedClass <==> ClassOf(answer) != MsgTypeClassError)
  {
    if ClassOf(answer) != MsgTypeClassSuccess then
      Refused(i, ErrorReason(answer), ClassOf(answer) != MsgTypeClassError)
    else Accepted(i, KindOf(i))
  }

  /** The report of attempt `i` once both of its exchanges went through. */
  function ReportFor(i: nat, a: Attempt): (r: Report)
    requires i < Transports && !Broken(a) && Readable(a)
  {
    Classify(i, a.answer.response)
  }

  /** The first attempt at or after `i` whose exchanges broke, or 256. */
  function FirstBroken(attempt: nat -> Attempt, i: nat): (k: nat)
    requires i <= Transports
    ensures i <= k <= Transports
    ensures forall j :: i <= j < k ==> !Broken(attempt(j))
    ensures k < Transports ==> Broken(attempt(k))
    decreases Transports - i
  {
    if i == Transports then Transports
    else if Broken(attempt(i)) then i
    else FirstBroken(attempt, i + 1)
  }

  /** The reports of the first `n` attempts, none of which broke. */
  function Reports(attempt: nat -> Attempt, n: nat): (r: seq<Report>)
    requires n <= FirstBroken(attempt, 0)
    requires forall j :: 0 <= j < n ==> Readable(attempt(j))
    ensures |r| == n
    ensures forall j :: 0 <= j < n ==> r[j] == ReportFor(j, attempt(j))
  {
    if n == 0 then []
    else
      var prev := Reports(attempt, n - 1);
      assert !Broken(attempt(n - 1));
      var r := prev + [ReportFor(n - 1, attempt(n - 1))];
      assert forall j :: 0 <= j < n - 1 ==> r[j] == prev[j];
      r
  }

  /** The scan runs to the end exactly when no attempt from `i` on breaks. */
  lemma {:induction false} RunsToEnd(attempt: nat -> Attempt, i: nat)
    requires i <= Transports
    ensures FirstBroken(attempt, i) == Transports <==> forall j :: i <= j < Transports ==> !Broken(attempt(j))
    decreases Transports - i
  {
    if i < Transports && !Broken(attempt(i)) {
      RunsToEnd(attempt, i + 1);
    }
  }

  /** The message an attempt broke with. */
  function BrokenMessage(a: Attempt): (m: string)
    requires Broken(a)
    ensures a.challenge.ExchangeFailed? ==> m == a.challenge.message
  {
    if a.challenge.ExchangeFailed? then a.challenge.message else a.answer.message
  }

  /**
   * The loop of BruteTransports: transports 0 through 255 in ascending
   * order, one report each, until an exchange breaks, which ends the whole
   * run with that error.
   */
  method BruteTransports(attempt: nat -> Attempt) returns (reports: seq<Report>, err: Option<string>)
    requires forall j :: 0 <= j < FirstBroken(attempt, 0) ==> Readable(attempt(j))
    ensures var k := FirstBroken(attempt, 0);
      && reports == Reports(attempt, k)
      && err == (if k < Transports then Some(BrokenMessage(attempt(k))) else None)
  {
    reports := [];
    for i := 0 to Transports
      invariant FirstBroken(attempt, 0) == FirstBroken(attempt, i)
      invariant reports == Reports(attempt, i)
    {
      var a := attempt(i);
      if Broken(a) {
        err := Some(BrokenMessage(a));
        return;
      }
      reports := reports + [ReportFor(i, a)];
    }
    err := None;
  }

  /** The authenticated Allocate of attempt `i` asks for transport `i` and carries the challenge's realm and nonce. */
  lemma AttemptRequest(transactionId: seq<byte>, username: seq<byte>, password: seq<byte>, i: nat, challenge: Stun)
    requires i < Transports
    ensures var s := AnswerChallenge(transactionId, username, password, challenge, i, AllocateProtocolIgnore);
      && s.attributes[0].value == PutU32LE(i)
      && TypesOf(s.attributes) == [AttrRequestedTransport, AttrUsername, AttrRealm, AttrNonce]
  {
    var s := AnswerChallenge(transactionId, username, password, challenge, i, AllocateProtocolIgnore);
    assert s == AllocateRequestAuth(transactionId, username, password, GetAttribute(challenge, AttrNonce).value,
                                    GetAttribute(challenge, AttrRealm).value, i, AllocateProtocolIgnore);
    assert TypesOf(FamilyAttributes(AllocateProtocolIgnore)) == [];
  }
}
