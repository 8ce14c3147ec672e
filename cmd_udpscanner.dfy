/**
 * internal/cmd/udpscanner.go: the option check of the UDP scanner and the
 * datagrams it relays through a TURN channel, an SNMP get-next request and
 * a DNS A query, each wrapped in a ChannelData frame (section 11.4 of
 * RFC 5766). The community string and the domain name are Go strings,
 * that is byte strings, and are modelled as bytes.
 */
module CmdUdpScanner {
  import opened Results
  import opened Bytes
  import opened Text
  import opened Helper
  import opened ParsersTurn
  import opened CmdCommon

  datatype UdpScannerOpts = UdpScannerOpts(
    turnServer: string, protocol: string, username: seq<byte>, password: seq<byte>,
    useTls: bool, timeout: nat, hasLog: bool,
    communityString: seq<byte>, domainName: seq<byte>, ips: seq<string>)

  const ErrCommunity := "please supply a valid community string"
  const ErrDomainName := "please supply a valid domain name"

  /** UDPScannerOpts.Validate: the six common checks, then a community string, then a domain name. */
  function Validate(opts: UdpScannerOpts): (r: Option<string>)
    ensures var c := CommonCheck(opts.turnServer, opts.protocol, opts.username, opts.password, opts.hasLog);
      && (c.Some? ==> r == c)
      && (r == Some(ErrCommunity) <==> c.None? && opts.communityString == [])
      && (r == Some(ErrDomainName) <==> c.None? && opts.communityString != [] && opts.domainName == [])
      && (r.None? <==> c.None? && opts.communityString != [] && opts.domainName != [])
  {
    var c := CommonCheck(opts.turnServer, opts.protocol, opts.username, opts.password, opts.hasLog);
    if c.Some? then c
    else if opts.communityString == [] then Some(ErrCommunity)
    else if opts.domainName == [] then Some(ErrDomainName)
    else None
  }

  // ---------------------------------------------------------------- ChannelData

  /**
   * The frame snmpScan and dnsScan send: the channel number, the payload
   * length as a big-endian uint16 (truncated as Go's `uint16(len)` does),
   * then the payload without padding.
   */
  function ChannelDataFrame(channel: seq<byte>, payload: seq<byte>): (r: seq<byte>)
    ensures |r| == |channel| + 2 + |payload|
    ensures r[..|channel|] == channel && r[|channel| + 2..] == payload
    ensures ReadU16(r[|channel|..|channel| + 2]) == |payload| % 0x1_0000
  {
    var r := channel + PutUint16(ToU16(|payload|)) + payload;
    assert r[|channel|..|channel| + 2] == PutUint16(ToU16(|payload|));
    r
  }

  /**
   * ExtractChannelData undoes the frame for a 2-byte channel number, and
   * accepts it exactly when the payload length fits the 16-bit field.
   */
  lemma ChannelDataRoundTrip(channel: seq<byte>, payload: seq<byte>)
    requires |channel| == 2
    ensures ExtractChannelData(ChannelDataFrame(channel, payload)).Ok? <==> |payload| < 0x1_0000
    ensures |payload| < 0x1_0000 ==> ExtractChannelData(ChannelDataFrame(channel, payload)) == Ok((channel, payload))
  {
    var frame := ChannelDataFrame(channel, payload);
    assert frame[2..4] == frame[|channel|..|channel| + 2];
    if |payload| < 0x1_0000 {
      var r := ExtractChannelData(frame);
      assert r.Ok?;
      assert frame[..2] == channel && frame[4..] == payload;
    }
  }

  // ----------------------------------------------------------------------- SNMP

  /** The get-next PDU header that follows the community string. */
  const SnmpGetNext: seq<byte> := [0xa1, 0x19, 0x02, 0x04]

  /** Error status, error index and the varbind list for OID 1.3.6.1.2.1 with a NULL value. */
  const SnmpVarBinds: seq<byte> :=
    [0x02, 0x01, 0x00, 0x02, 0x01, 0x00, 0x30, 0x0b, 0x30, 0x09, 0x06, 0x05, 0x2b, 0x06, 0x01, 0x02, 0x01, 0x05, 0x00]

  /**
   * The body of the SNMP sequence: version 1 (v2c), the community string
   * with a one-byte length that wraps modulo 256, the get-next header, the
   * request ID and the varbinds.
   */
  function SnmpInner(community: seq<byte>, requestId: u32): (r: seq<byte>)
    ensures |r| == 32 + |community|
    ensures r[..5] == [0x02, 0x01, 0x01, 0x04, |community| % 0x100]
    ensures r[5..5 + |community|] == community
    ensures r[5 + |community|..] == SnmpGetNext + PutUint32(requestId) + SnmpVarBinds
  {
    var r := [0x02, 0x01, 0x01, 0x04, |community| % 0x100] + community + SnmpGetNext + PutUint32(requestId) + SnmpVarBinds;
    assert r[5 + |community|..] == SnmpGetNext + PutUint32(requestId) + SnmpVarBinds;
    r
  }

  /** The SNMP datagram: a SEQUENCE tag 0x30, a one-byte length that wraps modulo 256, and the body. */
  function SnmpPacket(community: seq<byte>, requestId: u32): (r: seq<byte>)
    ensures |r| == 34 + |community|
    ensures r[0] == 0x30 && r[1] == (32 + |community|) % 0x100
    ensures r[2..] == SnmpInner(community, requestId)
  {
    var inner := SnmpInner(community, requestId);
    [0x30, |inner| % 0x100] + inner
  }

  /**
   * What an SNMP agent reads back: a SEQUENCE whose one-byte length covers
   * the rest of the datagram, version v2c, and an OCTET STRING community.
   */
  function SnmpCommunity(packet: seq<byte>): (r: Option<seq<byte>>)
    ensures r.Some? ==> |packet| >= 7 + |r.value| && packet[6] == |r.value| && r.value == packet[7..7 + |r.value|]
  {
    if |packet| < 7 || packet[0] != 0x30 || packet[1] != |packet| - 2 || packet[2..6] != [0x02, 0x01, 0x01, 0x04] then None
    else
      var n := packet[6] as int;
      if |packet| < 7 + n then None else Some(packet[7..7 + n])
  }

  /**
   * The community string survives the SNMP framing exactly when both
   * one-byte lengths are exact, that is for at most 223 bytes of community:
   * beyond that the overall length byte wraps.
   */
  lemma SnmpCommunityRoundTrip(community: seq<byte>, requestId: u32)
    ensures SnmpCommunity(SnmpPacket(community, requestId)).Some? <==> |community| <= 223
    ensures |community| <= 223 ==> SnmpCommunity(SnmpPacket(community, requestId)) == Some(community)
  {
    var p := SnmpPacket(community, requestId);
    var inner := SnmpInner(community, requestId);
    assert p[2..6] == inner[..4] == [0x02, 0x01, 0x01, 0x04];
    assert p[6] == inner[4];
    if |community| <= 223 {
      assert p[7..7 + |community|] == inner[5..5 + |community|];
    }
  }

  // ------------------------------------------------------------------------ DNS

  const Dot: byte := 0x2e

  /**
   * The 12-byte DNS header (section 4.1.1 of RFC 1035): the ID, flags 01 00
   * (a standard query with recursion desired), QDCOUNT 1 and zero answer,
   * authority and additional counts.
   */
  function DnsHeader(id: u16): (r: seq<byte>)
    ensures |r| == 12
    ensures ReadU16(r[..2]) == id && r[2..4] == [0x01, 0x00]
    ensures ReadU16(r[4..6]) == 1 && r[6..] == Zeros(6)
  {
    var r := PutUint16(id) + [0x01, 0x00] + PutUint16(1) + PutUint16(0) + PutUint16(0) + PutUint16(0);
    assert r[..2] == PutUint16(id) && r[4..6] == PutUint16(1);
    r
  }

  /** Each label as a one-byte length (wrapping modulo 256, never checked) followed by its bytes. */
  function EncodeLabels(parts: seq<seq<byte>>): (r: seq<byte>)
    ensures |parts| > 0 ==> |r| > |parts[0]| && r[0] == |parts[0]| % 0x100
  {
    if |parts| == 0 then [] else [|parts[0]| % 0x100] + parts[0] + EncodeLabels(parts[1..])
  }

  lemma {:induction false} EncodeLabelsSnoc(parts: seq<seq<byte>>, p: seq<byte>)
    ensures EncodeLabels(parts + [p]) == EncodeLabels(parts) + [|p| % 0x100] + p
  {
    if |parts| > 0 {
      assert (parts + [p])[1..] == parts[1..] + [p];
      EncodeLabelsSnoc(parts[1..], p);
    } else {
      assert parts + [p] == [p];
    }
  }

  /** The question section: the labels of the dot-separated name, a zero byte, type A (1) and class IN (1). */
  function DnsQuestion(domainName: seq<byte>): (r: seq<byte>)
    ensures |r| >= 5 && r[|r| - 5..] == [0x00, 0x00, 0x01, 0x00, 0x01]
  {
    var r := EncodeLabels(Split(domainName, Dot)) + [0x00] + PutUint16(1) + PutUint16(1);
    assert r[|r| - 5..] == [0x00] + PutUint16(1) + PutUint16(1);
    r
  }

  /**
   * The DNS query dnsScan builds, appending field by field and label by
   * label. The ID is the random 32-bit value truncated to 16 bits, given
   * here as a parameter.
   */
  method DnsQuery(id: u16, domainName: seq<byte>) returns (dns: seq<byte>)
    ensures dns == DnsHeader(id) + DnsQuestion(domainName)
  {
    dns := PutUint16(id) + [0x01, 0x00] + PutUint16(1) + PutUint16(0) + PutUint16(0) + PutUint16(0);
    var domainParts := Split(domainName, Dot);
    var domainBuf: seq<byte> := [];
    for i := 0 to |domainParts|
      invariant domainBuf == EncodeLabels(domainParts[..i])
    {
      EncodeLabelsSnoc(domainParts[..i], domainParts[i]);
      assert domainParts[..i + 1] == domainParts[..i] + [domainParts[i]];
      domainBuf := domainBuf + [|domainParts[i]| % 0x100] + domainParts[i];
    }
    assert domainParts[..|domainParts|] == domainParts;
    domainBuf := domainBuf + [0x00] + PutUint16(1) + PutUint16(1);
    dns := dns + domainBuf;
  }

  /**
   * How a resolver reads a name (section 4.1.4 of RFC 1035, without
   * compression pointers): labels of 1 to 63 bytes, each behind its length,
   * up to a zero byte. The result is the labels and the bytes consumed.
   */
  function DecodeLabels(buf: seq<byte>): (r: Option<(seq<seq<byte>>, nat)>)
    ensures r.Some? ==> r.value.1 <= |buf|
    decreases |buf|
  {
    if |buf| == 0 then None
    else if buf[0] == 0 then Some(([], 1))
    else
      var n := buf[0] as int;
      if n >= 64 || |buf| < 1 + n then None
      else
        match DecodeLabels(buf[1 + n..])
        case None => None
        case Some(rest) => Some(([buf[1..1 + n]] + rest.0, 1 + n + rest.1))
  }

  /** A label a resolver accepts: 1 to 63 bytes. */
  predicate ValidLabel(part: seq<byte>)
  {
    1 <= |part| <= 63
  }

  /** Labels of 1 to 63 bytes, terminated by a zero byte, decode back to themselves. */
  lemma {:induction false} LabelsRoundTrip(parts: seq<seq<byte>>, rest: seq<byte>)
    requires forall i :: 0 <= i < |parts| ==> ValidLabel(parts[i])
    ensures DecodeLabels(EncodeLabels(parts) + [0x00] + rest) == Some((parts, |EncodeLabels(parts)| + 1))
  {
    if |parts| > 0 {
      var n := |parts[0]|;
      var tail := EncodeLabels(parts[1..]) + [0x00] + rest;
      assert EncodeLabels(parts) == [n] + parts[0] + EncodeLabels(parts[1..]);
      assert EncodeLabels(parts) + [0x00] + rest == [n] + parts[0] + tail;
      DecodeCons(parts[0], tail);
      assert forall i :: 0 <= i < |parts[1..]| ==> ValidLabel(parts[1..][i]) by {
        forall i | 0 <= i < |parts[1..]| ensures ValidLabel(parts[1..][i]) {
          assert parts[1..][i] == parts[i + 1];
        }
      }
      LabelsRoundTrip(parts[1..], rest);
      assert [parts[0]] + parts[1..] == parts;
    }
  }

  /** One label in front of a buffer is decoded first, then the buffer. */
  lemma DecodeCons(part: seq<byte>, tail: seq<byte>)
    requires ValidLabel(part)
    ensures DecodeLabels(tail).None? ==> DecodeLabels([|part|] + part + tail).None?
    ensures DecodeLabels(tail).Some? ==>
              DecodeLabels([|part|] + part + tail)
              == Some(([part] + DecodeLabels(tail).value.0, 1 + |part| + DecodeLabels(tail).value.1))
  {
    var buf := [|part|] + part + tail;
    assert buf[1..1 + |part|] == part && buf[1 + |part|..] == tail;
  }

  /**
   * A domain name whose dot-separated labels all have 1 to 63 bytes comes
   * back from the query: the labels decode from offset 12, joining them
   * with dots gives the name, and type A, class IN follow.
   */
  lemma DnsNameRoundTrip(id: u16, domainName: seq<byte>, dns: seq<byte>)
    requires dns == DnsHeader(id) + DnsQuestion(domainName)
    requires forall i :: 0 <= i < |Split(domainName, Dot)| ==> ValidLabel(Split(domainName, Dot)[i])
    ensures DecodeLabels(dns[12..]).Some?
    ensures Join(DecodeLabels(dns[12..]).value.0, Dot) == domainName
    ensures dns[12 + DecodeLabels(dns[12..]).value.1..] == [0x00, 0x01, 0x00, 0x01]
  {
    var parts := Split(domainName, Dot);
    var tail := PutUint16(1) + PutUint16(1);
    assert |DnsHeader(id)| == 12;
    assert DnsQuestion(domainName) == EncodeLabels(parts) + [0x00] + tail;
    assert dns[12..] == EncodeLabels(parts) + [0x00] + tail;
    LabelsRoundTrip(parts, tail);
  }

  /** A 256-byte label's length byte wraps to 0, the end-of-name mark, as byte(len) does. */
  lemma LongLabelWraps(part: seq<byte>)
    requires |part| == 256
    ensures EncodeLabels([part])[0] == 0x00
  {
  }
}
