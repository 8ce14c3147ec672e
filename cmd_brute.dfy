/**
 * internal/cmd/brute.go: the older password guesser. The file is split at
 * every newline, each piece is tried with an unauthenticated Allocate for
 * transport 1 and an authenticated one, and the run stops at the first
 * password the server accepts. The exchanges of piece `i` are given as
 * parameters.
 */
module CmdBrute {
  import opened Results
  import opened Bytes
  import opened Text
  import opened TypesStun
  import opened TypesTurn
  import opened StunCodec
  import opened CmdCommon
  import Bf = CmdBruteforce

  datatype BruteOpts = BruteOpts(
    turnServer: string, protocol: string, username: seq<byte>, passfile: seq<byte>,
    useTls: bool, timeout: nat, hasLog: bool, listen: string, dropPublic: bool)

  /**
   * BruteOpts.Validate: the six common checks, with the password file in
   * the place of the password and the password's message; the listen
   * address is not checked.
   */
  function Validate(opts: BruteOpts): (r: Option<string>)
    ensures ServerCheck(opts.turnServer, opts.protocol).Some? ==> r == ServerCheck(opts.turnServer, opts.protocol)
    ensures r == Some(ErrPassword) <==> ServerCheck(opts.turnServer, opts.protocol).None? && opts.username != [] && opts.passfile == []
    ensures r.None? <==> HasPort(opts.turnServer) && KnownProtocol(opts.protocol)
                         && opts.username != [] && opts.passfile != [] && opts.hasLog
  {
    CommonCheck(opts.turnServer, opts.protocol, opts.username, opts.passfile, opts.hasLog)
  }

  /** strings.Split(string(pfile), "\n"): every piece is tried, carriage returns and a final empty piece included. */
  function Passwords(content: seq<byte>): (r: seq<seq<byte>>)
    ensures |r| >= 1 && Join(r, Bf.Newline) == content
    ensures forall i :: 0 <= i < |r| ==> Bf.Newline !in r[i]
  {
    Split(content, Bf.Newline)
  }

  /**
   * On a file whose every line ends with a newline, this guesser tries one
   * password more than the line scanner of bruteforce.go yields: the empty
   * one after the last newline.
   */
  lemma PasswordsOfFile(lines: seq<seq<byte>>)
    requires forall i :: 0 <= i < |lines| ==> Bf.PlainLine(lines[i])
    ensures var content := Join(lines + [[]], Bf.Newline);
      && Passwords(content) == lines + [[]]
      && Bf.ScanLines(content) == lines
  {
    var parts := lines + [[]];
    forall i | 0 <= i < |parts| ensures Bf.Newline !in parts[i] {
      if i < |lines| { assert Bf.PlainLine(lines[i]); }
    }
    SplitJoin(parts, Bf.Newline);
    Bf.ScanLinesOfFile(lines, true);
  }

  /** The transport every request of this guesser asks for. */
  const GuessTransport: u32 := 1

  /** The exchanges of one password. */
  datatype Try =
    | ConnectFailed(message: string)
    | ChallengeFailed(message: string)
    | AnswerFailed(message: string)
    | Answered(challenge: Stun, answer: Stun)

  /** How one password fared. */
  datatype Outcome =
    | Found
    | Incorrect
    | Unknown(reason: seq<byte>)
    | SendError(message: string)
    | Abort(message: string)

  /** The password ends the run: it is accepted, or connecting or the first Allocate failed. */
  predicate Stops(t: Try)
  {
    t.ConnectFailed? || t.ChallengeFailed? || (t.Answered? && ClassOf(t.answer) == MsgTypeClassSuccess)
  }

  /** A refused answer has an ERROR-CODE value Go can slice at 4. */
  predicate Readable(t: Try)
  {
    !t.Answered? || ClassOf(t.answer) == MsgTypeClassSuccess || ReasonReadable(t.answer)
  }

  /**
   * One iteration of the loop: connection and first-send failures abort;
   * a failed authenticated send is logged and skipped; a Success answer is
   * the credentials found; any other answer is incorrect credentials when
   * its reason phrase is "Unauthorized" and an unknown error otherwise. The
   * class of the first answer is not checked.
   */
  function TryOutcome(turnServer: string, t: Try): (o: Outcome)
    requires Readable(t)
    ensures o.Abort? <==> t.ConnectFailed? || t.ChallengeFailed?
    ensures o == Found <==> t.Answered? && ClassOf(t.answer) == MsgTypeClassSuccess
    ensures (o.Abort? || o == Found) <==> Stops(t)
    ensures o.SendError? <==> t.AnswerFailed?
    ensures o == Incorrect <==> t.Answered? && ClassOf(t.answer) != MsgTypeClassSuccess && ErrorReason(t.answer) == Bf.Unauthorized
    ensures o.Unknown? ==> t.Answered? && o.reason == ErrorReason(t.answer) && o.reason != Bf.Unauthorized
  {
    match t
    case ConnectFailed(m) => Abort("could not connect to " + turnServer + ": " + m)
    case ChallengeFailed(m) => Abort("error on sending allocate request: " + m)
    case AnswerFailed(m) => SendError(m)
    case Answered(_, answer) =>
      if ClassOf(answer) != MsgTypeClassSuccess then
        var reason := ErrorReason(answer);
        if reason == Bf.Unauthorized then Incorrect else Unknown(reason)
      else Found
  }

  /** The first password at or after `i` that ends the run, or `n`. */
  function FirstStop(attempt: nat -> Try, i: nat, n: nat): (k: nat)
    requires i <= n
    ensures i <= k <= n
    ensures forall j :: i <= j < k ==> !Stops(attempt(j))
    ensures k < n ==> Stops(attempt(k))
    decreases n - i
  {
    if i == n then n
    else if Stops(attempt(i)) then i
    else FirstStop(attempt, i + 1, n)
  }

  /** How the whole run ends. */
  datatype BruteResult = Exhausted | FoundCredentials(password: seq<byte>) | Aborted(message: string)

  /**
   * BruteForce after the options are valid and the file is read: the
   * passwords are tried in order until one ends the run; `outcomes` holds
   * what was logged for the ones before it.
   */
  method BruteForce(turnServer: string, passwords: seq<seq<byte>>, attempt: nat -> Try)
    returns (outcomes: seq<Outcome>, result: BruteResult)
    requires forall i :: 0 <= i < FirstStop(attempt, 0, |passwords|) ==> Readable(attempt(i))
    ensures var n := |passwords|; var k := FirstStop(attempt, 0, n);
      && |outcomes| == k
      && (forall j :: 0 <= j < k ==> outcomes[j] == TryOutcome(turnServer, attempt(j)))
      && result == (if k == n then Exhausted
                    else if attempt(k).Answered? then FoundCredentials(passwords[k])
                    else Aborted(TryOutcome(turnServer, attempt(k)).message))
  {
    outcomes := [];
    for i := 0 to |passwords|
      invariant FirstStop(attempt, 0, |passwords|) == FirstStop(attempt, i, |passwords|)
      invariant |outcomes| == i
      invariant forall j :: 0 <= j < i ==> outcomes[j] == TryOutcome(turnServer, attempt(j))
    {
      var o := TryOutcome(turnServer, attempt(i));
      if o == Found {
        result := FoundCredentials(passwords[i]);
        return;
      }
      if o.Abort? {
        result := Aborted(o.message);
        return;
      }
      outcomes := outcomes + [o];
    }
    result := Exhausted;
  }

  /** The authenticated Allocate asks for IP protocol 1, neither TCP nor UDP. */
  lemma GuessRequest(transactionId: seq<byte>, username: seq<byte>, password: seq<byte>, challenge: Stun)
    ensures var s := AnswerChallenge(transactionId, username, password, challenge, GuessTransport, AllocateProtocolIgnore);
      && s.attributes[0].value == [1, 0, 0, 0]
      && GuessTransport != RequestedTransportTcp && GuessTransport != RequestedTransportUdp
  {
    var v := PutU32LE(GuessTransport);
    assert ReadU32([v[3], v[2], v[1], v[0]]) == 1;
  }
}
