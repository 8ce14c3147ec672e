/**
 * internal/cmd/tcpscanner.go: the option check of the TCP scanner, the
 * parsing of its port list, the order of its probes and the rule that
 * picks TLS for a port.
 */
module CmdTcpScanner {
  import opened Results
  import opened Bytes
  import opened Text
  import opened CmdCommon

  datatype TcpScannerOpts = TcpScannerOpts(
    turnServer: string, protocol: string, username: seq<byte>, password: seq<byte>,
    useTls: bool, timeout: nat, hasLog: bool, ports: seq<string>, ips: seq<string>)

  const ErrPorts := "please supply valid ports"

  /** TCPScannerOpts.Validate: the six common checks, then a non-empty port list. */
  function Validate(opts: TcpScannerOpts): (r: Option<string>)
    ensures var c := CommonCheck(opts.turnServer, opts.protocol, opts.username, opts.password, opts.hasLog);
      && (c.Some? ==> r == c)
      && (r == Some(ErrPorts) <==> c.None? && |opts.ports| == 0)
      && (r.None? <==> c.None? && |opts.ports| > 0)
  {
    var c := CommonCheck(opts.turnServer, opts.protocol, opts.username, opts.password, opts.hasLog);
    if c.Some? then c
    else if |opts.ports| == 0 then Some(ErrPorts)
    else None
  }

  /** The probe written to every target, over TLS or in the clear. */
  const HttpRequest: string := "GET / HTTP/1.0\r\n\r\n"

  /** The ports httpScan wraps in TLS. */
  const TlsPorts: set<u16> := {443, 8443, 7443, 8843}

  /** httpScan's TLS rule: TLS exactly for 443, 8443, 7443 and 8843. */
  function UseTls(port: u16): (r: bool)
    ensures r <==> port in TlsPorts
    ensures port == 80 || port == 8080 ==> !r
  {
    port == 443 || port == 8443 || port == 7443 || port == 8843
  }

  // ------------------------------------------------------------ decimal text

  predicate IsDigit(c: char)
  {
    '0' <= c <= '9'
  }

  predicate AllDigits(s: string)
  {
    forall i :: 0 <= i < |s| ==> IsDigit(s[i])
  }

  /** The value of a string of decimal digits. */
  function CharsValue(s: string): nat
    requires AllDigits(s)
  {
    if |s| == 0 then 0 else 10 * CharsValue(s[..|s| - 1]) + (s[|s| - 1] as int - '0' as int)
  }

  /** The decimal text of `n`, as strconv.Itoa writes it. */
  function DecimalText(n: nat): (r: string)
    ensures |r| >= 1 && AllDigits(r)
  {
    var d := Decimal(n);
    seq(|d|, i requires 0 <= i < |d| => (d[i] as char))
  }

  lemma {:induction false} CharsValueOfBytes(d: seq<byte>)
    requires forall i :: 0 <= i < |d| ==> 0x30 <= d[i] <= 0x39
    ensures var s := seq(|d|, i requires 0 <= i < |d| => (d[i] as char));
      AllDigits(s) && CharsValue(s) == DigitsValue(d)
  {
    var s := seq(|d|, i requires 0 <= i < |d| => (d[i] as char));
    if |d| > 0 {
      var d' := d[..|d| - 1];
      CharsValueOfBytes(d');
      assert s[..|s| - 1] == seq(|d'|, i requires 0 <= i < |d'| => (d'[i] as char));
    }
  }

  /** Reading the decimal text of `n` gives `n`. */
  lemma DecimalTextValue(n: nat)
    ensures CharsValue(DecimalText(n)) == n
  {
    CharsValueOfBytes(Decimal(n));
    DecimalValue(n);
  }

  /** Digits are not space, so trimming leaves the decimal text alone. */
  lemma TrimDecimalText(n: nat)
    ensures TrimSpace(DecimalText(n)) == DecimalText(n)
  {
    var s := DecimalText(n);
    assert !IsSpace(s[0]) && !IsSpace(s[|s| - 1]);
    assert LeadingSpaces(s) == 0;
    assert s[0..] == s;
    assert TrailingSpaces(s) == 0;
  }

  // -------------------------------------------------------------- port parsing

  /** strconv.ParseUint(s, 10, 16): one or more decimal digits whose value fits 16 bits. */
  function ParseUint16(s: string): (r: Option<u16>)
    ensures r.Some? <==> s != "" && AllDigits(s) && CharsValue(s) < 0x1_0000
    ensures r.Some? ==> r.value == CharsValue(s)
  {
    if s == "" || !AllDigits(s) || CharsValue(s) >= 0x1_0000 then None else Some(CharsValue(s))
  }

  /**
   * strconv.ParseInt(s, 10, 16): an optional '+' or '-', then one or more
   * decimal digits; the value must lie in the signed 16-bit range.
   */
  function ParseInt16(s: string): (r: Option<int>)
    ensures r.Some? ==> -0x8000 <= r.value < 0x8000
  {
    if s == "" then None
    else
      var neg := s[0] == '-';
      var digits := if s[0] == '+' || s[0] == '-' then s[1..] else s;
      if digits == "" || !AllDigits(digits) then None
      else
        var un: int := CharsValue(digits);
        if !neg && un >= 0x8000 then None
        else if neg && un > 0x8000 then None
        else Some(if neg then -un else un)
  }

  /** ParseInt16 on plain decimal text accepts exactly the values below 32768. */
  lemma ParseInt16Decimal(n: nat)
    ensures ParseInt16(DecimalText(n)) == (if n < 0x8000 then Some(n) else None)
  {
    DecimalTextValue(n);
    var s := DecimalText(n);
    assert IsDigit(s[0]);
  }

  /** ParseInt16 on a negated decimal accepts exactly the magnitudes up to 32768. */
  lemma ParseInt16Negative(n: nat)
    ensures ParseInt16("-" + DecimalText(n)) == (if n <= 0x8000 then Some(-(n as int)) else None)
  {
    DecimalTextValue(n);
    assert ("-" + DecimalText(n))[1..] == DecimalText(n);
  }

  /**
   * The port as TCPScanner reads it: trimmed, parsed by ParseInt(port, 10,
   * 16), then converted with uint16(), which wraps a negative value modulo
   * 2^16.
   */
  function PortAsWritten(port: string): (r: Option<u16>)
    ensures r.Some? <==> ParseInt16(TrimSpace(port)).Some?
    ensures r.Some? ==> r.value == ParseInt16(TrimSpace(port)).value % 0x1_0000
  {
    match ParseInt16(TrimSpace(port))
    case None => None
    case Some(v) => Some(v % 0x1_0000)
  }

  /**
   * The port as TCPScanner evidently means to read it: trimmed and parsed
   * by ParseUint(port, 10, 16), so every TCP port 0..65535 is accepted and
   * no sign is.
   */
  function Port(port: string): (r: Option<u16>)
    ensures r.Some? <==> ParseUint16(TrimSpace(port)).Some?
    ensures r.Some? ==> r.value == CharsValue(TrimSpace(port))
  {
    ParseUint16(TrimSpace(port))
  }

  /** Every TCP port, written in decimal, reads back as itself. */
  lemma PortRoundTrip(n: u16)
    ensures Port(DecimalText(n)) == Some(n)
  {
    TrimDecimalText(n);
    DecimalTextValue(n);
  }

  /**
   * As written, the ports 32768..65535 are refused (the whole scan stops
   * with "Invalid port"), while the two readings agree below 32768.
   */
  lemma PortAsWrittenRejectsHighPorts(n: u16)
    ensures n >= 0x8000 ==> PortAsWritten(DecimalText(n)) == None
    ensures n < 0x8000 ==> PortAsWritten(DecimalText(n)) == Some(n) == Port(DecimalText(n))
  {
    TrimDecimalText(n);
    ParseInt16Decimal(n);
    PortRoundTrip(n);
  }

  /** As written, "-1" is accepted and scanned as port 65535, which Port refuses. */
  lemma PortAsWrittenNegative()
    ensures PortAsWritten("-1") == Some(0xffff)
    ensures Port("-1") == None
  {
    var s := "-1";
    assert !IsSpace(s[0]) && !IsSpace(s[1]);
    assert LeadingSpaces(s) == 0 && s[0..] == s && TrailingSpaces(s) == 0;
    assert TrimSpace(s) == s;
    assert s[1..] == "1" && CharsValue("1") == 1;
    assert !IsDigit(s[0]);
  }

  // ---------------------------------------------------------------- scan order

  /**
   * The index of the first port that TCPScanner's ParseInt(port, 10, 16)
   * refuses, or |ports| when it accepts all of them.
   */
  function FirstBadPort(ports: seq<string>): (k: nat)
    ensures k <= |ports|
    ensures forall i :: 0 <= i < k ==> PortAsWritten(ports[i]).Some?
    ensures k < |ports| ==> PortAsWritten(ports[k]).None?
  {
    if |ports| == 0 then 0
    else if PortAsWritten(ports[0]).None? then 0
    else 1 + FirstBadPort(ports[1..])
  }

  /** The ports as TCPScanner converts them, in order. */
  function Parsed(ports: seq<string>): (r: seq<u16>)
    requires forall i :: 0 <= i < |ports| ==> PortAsWritten(ports[i]).Some?
    ensures |r| == |ports| && forall i :: 0 <= i < |ports| ==> r[i] == PortAsWritten(ports[i]).value
  {
    seq(|ports|, i requires 0 <= i < |ports| => PortAsWritten(ports[i]).value)
  }

  /** One target with every port, in port order. */
  function Pairs<T>(ip: T, ports: seq<u16>): (r: seq<(T, u16)>)
    ensures |r| == |ports| && forall i :: 0 <= i < |ports| ==> r[i] == (ip, ports[i])
  {
    seq(|ports|, i requires 0 <= i < |ports| => (ip, ports[i]))
  }

  /** Every target with every port: targets in order, ports in order within a target. */
  function Cross<T>(ips: seq<T>, ports: seq<u16>): (r: seq<(T, u16)>)
    ensures |r| == |ips| * |ports|
  {
    if |ips| == 0 then [] else Cross(ips[..|ips| - 1], ports) + Pairs(ips[|ips| - 1], ports)
  }

  lemma ParsedPrefix(ports: seq<string>, j: nat)
    requires j < FirstBadPort(ports)
    ensures Parsed(ports[..j + 1])[..j] == Parsed(ports[..j])
  {
    var pa, pb := Parsed(ports[..j + 1]), Parsed(ports[..j]);
    forall i | 0 <= i < j ensures pa[i] == pb[i] {
      assert ports[..j + 1][i] == ports[..j][i];
    }
  }

  lemma ParsedStep(ports: seq<string>, j: nat)
    requires j < FirstBadPort(ports)
    ensures Parsed(ports[..j + 1]) == Parsed(ports[..j]) + [PortAsWritten(ports[j]).value]
  {
    var pa := Parsed(ports[..j + 1]);
    ParsedPrefix(ports, j);
    assert ports[..j + 1][j] == ports[j];
    LastSplit(pa);
  }

  lemma LastSplit<T>(s: seq<T>)
    requires |s| > 0
    ensures s == s[..|s| - 1] + [s[|s| - 1]]
  {
  }

  lemma PairsSnoc<T>(ip: T, ps: seq<u16>, p: u16)
    ensures Pairs(ip, ps + [p]) == Pairs(ip, ps) + [(ip, p)]
  {
  }

  lemma RowStep<T>(ip: T, ports: seq<string>, j: nat)
    requires j < FirstBadPort(ports)
    ensures Pairs(ip, Parsed(ports[..j + 1])) == Pairs(ip, Parsed(ports[..j])) + [(ip, PortAsWritten(ports[j]).value)]
  {
    ParsedStep(ports, j);
    PairsSnoc(ip, Parsed(ports[..j]), PortAsWritten(ports[j]).value);
  }

  /**
   * The inner loop of TCPScanner for one target: the target with each port
   * in order, as PortAsWritten converts it, up to the first port that
   * ParseInt refuses, whose trimmed text is then reported.
   */
  method PortRow<T>(ip: T, ports: seq<string>) returns (row: seq<(T, u16)>, badPort: Option<string>)
    ensures var k := FirstBadPort(ports);
      && row == Pairs(ip, Parsed(ports[..k]))
      && badPort == (if k < |ports| then Some(TrimSpace(ports[k])) else None)
  {
    row := [];
    for j := 0 to |ports|
      invariant j <= FirstBadPort(ports)
      invariant row == Pairs(ip, Parsed(ports[..j]))
    {
      var p := PortAsWritten(ports[j]);
      StopsAt(ports, j);
      if p.None? {
        badPort := Some(TrimSpace(ports[j]));
        return;
      }
      RowStep(ip, ports, j);
      row := row + [(ip, p.value)];
    }
    assert ports[..|ports|] == ports;
    badPort := None;
  }

  /** Below the first refused port, a port is refused exactly when it is the first refused one. */
  lemma StopsAt(ports: seq<string>, j: nat)
    requires j < |ports| && j <= FirstBadPort(ports)
    ensures PortAsWritten(ports[j]).None? <==> FirstBadPort(ports) == j
  {
  }

  /**
   * The probes TCPScanner makes, as (target, port) pairs, and the port text
   * that stopped it, if any. A port that ParseInt refuses stops the scan while
   * it is still on the first target, after that target's earlier ports;
   * otherwise every target meets every port. Targets whose range iteration
   * failed are skipped before this point and do not appear.
   */
  method ScanProbes<T>(ips: seq<T>, ports: seq<string>) returns (probes: seq<(T, u16)>, badPort: Option<string>)
    ensures |ips| == 0 ==> probes == [] && badPort == None
    ensures |ips| > 0 && FirstBadPort(ports) == |ports| ==> badPort == None && probes == Cross(ips, Parsed(ports))
    ensures var k := FirstBadPort(ports);
      |ips| > 0 && k < |ports| ==> badPort == Some(TrimSpace(ports[k])) && probes == Pairs(ips[0], Parsed(ports[..k]))
  {
    probes := [];
    badPort := None;
    for i := 0 to |ips|
      invariant i > 0 ==> FirstBadPort(ports) == |ports|
      invariant i == 0 ==> probes == []
      invariant i > 0 ==> probes == Cross(ips[..i], Parsed(ports))
    {
      var row, bad := PortRow(ips[i], ports);
      if bad.Some? {
        badPort := bad;
        probes := probes + row;
        return;
      }
      assert ports[..|ports|] == ports;
      assert ips[..i + 1][..i] == ips[..i];
      probes := probes + row;
    }
    assert |ips| > 0 ==> ips[..|ips|] == ips;
  }

  /**
   * A port from 32768 up stops the scan with "Invalid port" at or before
   * its position, so it is never probed.
   */
  lemma ScanStopsAtHighPort(ports: seq<string>, k: nat, n: u16)
    requires k < |ports| && ports[k] == DecimalText(n) && n >= 0x8000
    ensures FirstBadPort(ports) <= k
  {
    PortAsWrittenRejectsHighPorts(n);
  }

  /** The port list ["-1"] is accepted, and every target is probed on port 65535. */
  lemma ScanNegativePort()
    ensures FirstBadPort(["-1"]) == 1 && Parsed(["-1"]) == [0xffff]
  {
    PortAsWrittenNegative();
  }

  /**
   * The scan gets past port parsing exactly when ParseInt(port, 10, 16)
   * accepts every trimmed port, that is, each lies in -32768..32767.
   */
  lemma ScanAcceptsAll(ports: seq<string>)
    ensures FirstBadPort(ports) == |ports| <==>
              forall i :: 0 <= i < |ports| ==> ParseInt16(TrimSpace(ports[i])).Some?
  {
  }

  /** Every probe of a completed scan pairs a given target with a given, parsed port. */
  lemma {:induction false} CrossMembers<T>(ips: seq<T>, ports: seq<u16>, n: nat)
    requires n < |Cross(ips, ports)|
    ensures Cross(ips, ports)[n].0 in ips && Cross(ips, ports)[n].1 in ports
  {
    var init := ips[..|ips| - 1];
    var c := Cross(init, ports);
    if n < |c| {
      CrossMembers(init, ports, n);
      assert Cross(ips, ports)[n] == c[n];
      assert forall x :: x in init ==> x in ips;
    } else {
      assert Cross(ips, ports)[n] == Pairs(ips[|ips| - 1], ports)[n - |c|];
    }
  }
}
