/**
 * internal/cmd/bruteforce.go: read a password file line by line and, for
 * every line, try the password with an unauthenticated Allocate followed by
 * an authenticated one. A valid password is reported and the scan goes on;
 * any network error, or a first response that is not a challenge, ends the
 * whole run. The lines are the tokens ScanLines yields for the file, and the
 * exchanges of line `i` are given as parameters.
 */
module CmdBruteforce {
  import opened Results
  import opened Bytes
  import opened Text
  import opened TypesStun
  import opened StunCodec
  import opened CmdCommon

  datatype BruteforceOpts = BruteforceOpts(
    turnServer: string, protocol: string, username: seq<byte>, passfile: seq<byte>,
    useTls: bool, timeout: nat, hasLog: bool)

  const ErrPassfile := "please supply a password file"

  /** BruteforceOpts.Validate: the server checks, then username, password file and logger. */
  function Validate(opts: BruteforceOpts): (r: Option<string>)
    ensures var s := ServerCheck(opts.turnServer, opts.protocol);
      && (s.Some? ==> r == s)
      && (r == Some(ErrUsername) <==> s.None? && opts.username == [])
      && (r == Some(ErrPassfile) <==> s.None? && opts.username != [] && opts.passfile == [])
      && (r == Some(ErrLogger) <==> s.None? && opts.username != [] && opts.passfile != [] && !opts.hasLog)
      && (r.None? <==> s.None? && opts.username != [] && opts.passfile != [] && opts.hasLog)
  {
    var s := ServerCheck(opts.turnServer, opts.protocol);
    if s.Some? then s
    else if opts.username == [] then Some(ErrUsername)
    else if opts.passfile == [] then Some(ErrPassfile)
    else if !opts.hasLog then Some(ErrLogger)
    else None
  }

  const Newline: byte := 0x0a
  const CarriageReturn: byte := 0x0d

  /** A line without its final carriage return, if it has one. */
  function DropCR(line: seq<byte>): seq<byte>
  {
    if |line| > 0 && line[|line| - 1] == CarriageReturn then line[..|line| - 1] else line
  }

  /**
   * The tokens bufio.ScanLines yields: the content split at every newline,
   * without the empty piece after a final newline, each line without a
   * trailing carriage return.
   */
  function ScanLines(content: seq<byte>): seq<seq<byte>>
  {
    KeptLines(Split(content, Newline))
  }

  /** A line of a password file as written back: no newline in it and no carriage return at its end. */
  predicate PlainLine(line: seq<byte>)
  {
    Newline !in line && (line == [] || line[|line| - 1] != CarriageReturn)
  }

  /** The lines ScanLines keeps from the pieces between newlines. */
  function KeptLines(parts: seq<seq<byte>>): seq<seq<byte>>
    requires |parts| >= 1
  {
    var kept := if parts[|parts| - 1] == [] then parts[..|parts| - 1] else parts;
    seq(|kept|, i requires 0 <= i < |kept| => DropCR(kept[i]))
  }

  /** Plain lines are kept as they are. */
  lemma KeptPlainLines(parts: seq<seq<byte>>, lines: seq<seq<byte>>)
    requires |parts| >= 1
    requires parts == lines + [[]] || (parts == lines && lines[|lines| - 1] != [])
    requires forall i :: 0 <= i < |lines| ==> PlainLine(lines[i])
    ensures KeptLines(parts) == lines
  {
    var kept := if parts[|parts| - 1] == [] then parts[..|parts| - 1] else parts;
    assert kept == lines;
    var r := KeptLines(parts);
    assert |r| == |lines|;
    forall i | 0 <= i < |lines| ensures r[i] == lines[i] {
      assert PlainLine(lines[i]);
      assert r[i] == DropCR(kept[i]);
    }
  }

  /**
   * Reading a file whose lines are written out each followed by a newline
   * gives exactly those lines back, and so does a file whose last line is
   * not empty and has no newline after it.
   */
  lemma ScanLinesOfFile(lines: seq<seq<byte>>, terminated: bool)
    requires forall i :: 0 <= i < |lines| ==> PlainLine(lines[i])
    requires !terminated ==> |lines| >= 1 && lines[|lines| - 1] != []
    ensures ScanLines(Join(if terminated then lines + [[]] else lines, Newline)) == lines
  {
    var parts := if terminated then lines + [[]] else lines;
    forall i | 0 <= i < |parts| ensures Newline !in parts[i] {
      if i < |lines| { assert PlainLine(lines[i]); }
    }
    SplitJoin(parts, Newline);
    KeptPlainLines(parts, lines);
  }

  /** How one password fared. */
  datatype Verdict =
    | Valid
    | Rejected
    | Unknown(reason: seq<byte>)
    | Failed(message: string)

  /** The exchanges of one line: connecting, the unauthenticated Allocate and the authenticated one. */
  datatype Trial = ConnectFailed(message: string) | Connected(challenge: Exchange, answer: Exchange)

  const ErrNotChallenged := "MessageClass is not Error (should be not authenticated)"

  /** The reason phrase of an answer that rejects the credentials. */
  const Unauthorized: seq<byte> := Ascii("Unauthorized")

  /** Both Allocates went through and the first was challenged with an Error response. */
  predicate Answered(t: Trial)
  {
    && t.Connected? && t.challenge.Replied? && ClassOf(t.challenge.response) == MsgTypeClassError
    && t.answer.Replied?
  }

  /** The password was accepted. */
  predicate Accepts(t: Trial)
  {
    Answered(t) && ClassOf(t.answer.response) == MsgTypeClassSuccess
  }

  /** An answered trial that was not accepted has an ERROR-CODE value Go can slice at 4. */
  predicate Readable(t: Trial)
  {
    !Answered(t) || Accepts(t) || ReasonReadable(t.answer.response)
  }

  /** The error testPassword returns when a trial is not answered. */
  function FailMessage(t: Trial): string
    requires !Answered(t)
  {
    match t
    case ConnectFailed(m) => m
    case Connected(challenge, answer) =>
      if challenge.ExchangeFailed? then "error on sending AllocateRequest: " + challenge.message
      else if ClassOf(challenge.response) != MsgTypeClassError then ErrNotChallenged
      else "error on sending AllocateRequest Auth: " + answer.message
  }

  /**
   * testPassword: a failure of any step before the authenticated answer,
   * or a first response that is not of the Error class, is an error;
   * a Success-class answer means valid credentials; any other answer is a
   * rejection when its reason phrase is "Unauthorized" and an unknown error
   * otherwise.
   */
  function TestPassword(t: Trial): (v: Verdict)
    requires Readable(t)
    ensures v.Failed? <==> !Answered(t)
    ensures v.Failed? ==> v.message == FailMessage(t)
    ensures t.Connected? && t.challenge.Replied? && ClassOf(t.challenge.response) != MsgTypeClassError
      ==> v == Failed(ErrNotChallenged)
    ensures v == Valid <==> Accepts(t)
    ensures v == Rejected <==> Answered(t) && !Accepts(t) && ErrorReason(t.answer.response) == Unauthorized
    ensures v.Unknown? <==> Answered(t) && !Accepts(t) && ErrorReason(t.answer.response) != Unauthorized
    ensures v.Unknown? ==> v.reason == ErrorReason(t.answer.response)
  {
    if !Answered(t) then Failed(FailMessage(t))
    else if Accepts(t) then Valid
    else
      var reason := ErrorReason(t.answer.response);
      if reason != Unauthorized then Unknown(reason) else Rejected
  }

  /** The first line at or after `i` whose trial fails, or `n`. */
  function FirstFailure(trial: nat -> Trial, i: nat, n: nat): (k: nat)
    requires i <= n
    ensures i <= k <= n
    ensures forall j :: i <= j < k ==> Answered(trial(j))
    ensures k < n ==> !Answered(trial(k))
    decreases n - i
  {
    if i == n then n
    else if !Answered(trial(i)) then i
    else FirstFailure(trial, i + 1, n)
  }

  /** The verdicts on the first `m` of `n` passwords, none of whose trials failed. */
  function Verdicts(trial: nat -> Trial, n: nat, m: nat): (r: seq<Verdict>)
    requires m <= FirstFailure(trial, 0, n)
    requires forall i :: 0 <= i < m ==> Readable(trial(i))
    ensures |r| == m
    ensures forall j :: 0 <= j < m ==> r[j] == TestPassword(trial(j)) && !r[j].Failed?
  {
    if m == 0 then []
    else
      var prev := Verdicts(trial, n, m - 1);
      assert Answered(trial(m - 1));
      var r := prev + [TestPassword(trial(m - 1))];
      assert forall j :: 0 <= j < m - 1 ==> r[j] == prev[j];
      r
  }

  /**
   * BruteForce after the options are valid and the file is read: every
   * line is tried in order, a valid password does not stop the scan, and
   * the first failing trial ends it with its error.
   */
  method BruteForce(lines: seq<seq<byte>>, trial: nat -> Trial) returns (verdicts: seq<Verdict>, err: Option<string>)
    requires forall i :: 0 <= i < FirstFailure(trial, 0, |lines|) ==> Readable(trial(i))
    ensures var n := |lines|; var k := FirstFailure(trial, 0, n);
      && verdicts == Verdicts(trial, n, k)
      && err == (if k < n then Some(FailMessage(trial(k))) else None)
  {
    verdicts := [];
    for i := 0 to |lines|
      invariant FirstFailure(trial, 0, |lines|) == FirstFailure(trial, i, |lines|)
      invariant verdicts == Verdicts(trial, |lines|, i)
    {
      var v := TestPassword(trial(i));
      if v.Failed? {
        err := Some(v.message);
        return;
      }
      verdicts := verdicts + [v];
    }
    err := None;
  }
}
