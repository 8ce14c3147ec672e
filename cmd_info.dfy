/**
 * internal/cmd/info.go: ask a server whether it speaks STUN (a Binding
 * request must not be answered with an Error) and TURN (an unauthenticated
 * Allocate must be challenged with an Error), and list the attributes of
 * the responses. The network results are given as parameters.
 */
module CmdInfo {
  import opened Results
  import opened Bytes
  import opened TypesStun
  import opened TypesTurn
  import opened TypesTurnTcp
  import opened StunCodec
  import opened HelpersString
  import opened CmdCommon

  datatype InfoOpts = InfoOpts(turnServer: string, useTls: bool, protocol: string, timeout: nat, hasLog: bool)

  /** InfoOpts.Validate: the three server checks, then the logger. */
  function Validate(opts: InfoOpts): (r: Option<string>)
    ensures var s := ServerCheck(opts.turnServer, opts.protocol);
      && (s.Some? ==> r == s)
      && (r == Some(ErrLogger) <==> s.None? && !opts.hasLog)
      && (r.None? <==> s.None? && opts.hasLog)
  {
    var s := ServerCheck(opts.turnServer, opts.protocol);
    if s.Some? then s else if !opts.hasLog then Some(ErrLogger) else None
  }

  /** Why a test failed; the wording of Go's messages is not modelled. */
  datatype TestError = NetFailed(message: string) | SendFailed(message: string) | ErrorClass(reason: seq<byte>) | NotChallenged

  /** What the network does during one test: connecting, then one request and its response. */
  datatype Trial = Trial(connect: Option<string>, exchange: Exchange)

  /** The test got a response. */
  predicate Replied(t: Trial)
  {
    t.connect.None? && t.exchange.Replied?
  }

  /**
   * testStun: the attributes of the Binding response, unless connecting
   * or sending fails or the response is of the Error class, which is
   * reported with GetErrorString.
   */
  function TestStun(t: Trial): (r: Result<seq<Attribute>, TestError>)
    requires Replied(t) && ClassOf(t.exchange.response) == MsgTypeClassError ==> ErrorCodeReadable(t.exchange.response)
    ensures r.Ok? <==> Replied(t) && ClassOf(t.exchange.response) != MsgTypeClassError
    ensures r.Ok? ==> r.value == t.exchange.response.attributes
    ensures Replied(t) && ClassOf(t.exchange.response) == MsgTypeClassError
            ==> r == Err(ErrorClass(GetErrorString(t.exchange.response)))
  {
    if t.connect.Some? then Err(NetFailed(t.connect.value))
    else if t.exchange.ExchangeFailed? then Err(SendFailed(t.exchange.message))
    else if ClassOf(t.exchange.response) == MsgTypeClassError then Err(ErrorClass(GetErrorString(t.exchange.response)))
    else Ok(t.exchange.response.attributes)
  }

  /**
   * testTurn: the attributes of the Allocate response, which must be an
   * Error challenge; any other class means the server does not
   * authenticate and is reported as such.
   */
  function TestTurn(t: Trial): (r: Result<seq<Attribute>, TestError>)
    ensures r.Ok? <==> Replied(t) && ClassOf(t.exchange.response) == MsgTypeClassError
    ensures r.Ok? ==> r.value == t.exchange.response.attributes
    ensures Replied(t) && ClassOf(t.exchange.response) != MsgTypeClassError ==> r == Err(NotChallenged)
  {
    if t.connect.Some? then Err(NetFailed(t.connect.value))
    else if t.exchange.ExchangeFailed? then Err(SendFailed(t.exchange.message))
    else if ClassOf(t.exchange.response) != MsgTypeClassError then Err(NotChallenged)
    else Ok(t.exchange.response.attributes)
  }

  /** The RESPONSE-ORIGIN and OTHER-ADDRESS attributes of section 7 of RFC 5780. */
  const AttrResponseOrigin: u16 := 0x802b
  const AttrOtherAddress: u16 := 0x802c

  /** Attributes printAttributes does not list. */
  const Hidden: set<u16> := {AttrNonce, AttrErrorCode, AttrFingerprint, AttrXorMappedAddress, AttrMappedAddress}

  /** How a value is shown: its bytes, or the address a mapped-address value decodes to. */
  datatype Shown = Raw(bytes: seq<byte>) | Address(ip: seq<byte>, port: u16)

  /** One line printAttributes logs. */
  datatype Line =
    | Banner
    | Named(name: string, value: Shown)
    | NonStandard(typ: u16, value: Shown)
    | UnparsedAddress(raw: seq<byte>, error: string)

  /** A mapped-address decoder: the address and port, or why the value is not one. */
  type AddressParser = seq<byte> -> Result<(seq<byte>, u16), string>

  /** The attribute carries an RFC 5780 address. */
  predicate IsMapped(typ: u16)
  {
    typ == AttrResponseOrigin || typ == AttrOtherAddress
  }

  /**
   * The line for one listed attribute: an RFC 5780 address that does not
   * decode is reported as such; otherwise the attribute is named by
   * AttributeTypeString, or reported as non-standard when that is "".
   */
  function AttributeLine(a: Attribute, parseMapped: AddressParser): (l: Line)
    ensures l != Banner
    ensures l.UnparsedAddress? <==> IsMapped(a.typ) && parseMapped(a.value).Err?
    ensures l.Named? ==> l.name == AttributeTypeString(a.typ) && l.name != ""
    ensures l.NonStandard? ==> l.typ == a.typ && AttributeTypeString(a.typ) == ""
    ensures (l.Named? || l.NonStandard?) && IsMapped(a.typ) ==>
              l.value == Address(parseMapped(a.value).value.0, parseMapped(a.value).value.1)
    ensures (l.Named? || l.NonStandard?) && !IsMapped(a.typ) ==> l.value == Raw(a.value)
  {
    var parsed := if IsMapped(a.typ) then Some(parseMapped(a.value)) else None;
    if parsed.Some? && parsed.value.Err? then UnparsedAddress(a.value, parsed.value.error)
    else
      var value := if parsed.Some? then Address(parsed.value.value.0, parsed.value.value.1) else Raw(a.value);
      var name := AttributeTypeString(a.typ);
      if name == "" then NonStandard(a.typ, value) else Named(name, value)
  }

  /** The lines of the listed attributes, in order, without the banner. */
  function AttributeLines(attrs: seq<Attribute>, parseMapped: AddressParser): (r: seq<Line>)
    ensures |r| <= |attrs|
    ensures forall k :: 0 <= k < |r| ==> r[k] != Banner
    ensures r == [] <==> forall i :: 0 <= i < |attrs| ==> attrs[i].typ in Hidden
  {
    if |attrs| == 0 then []
    else
      var last := attrs[|attrs| - 1];
      var rest := AttributeLines(attrs[..|attrs| - 1], parseMapped);
      if last.typ in Hidden then rest else rest + [AttributeLine(last, parseMapped)]
  }

  /** What printAttributes logs: the banner and the attribute lines, or nothing when no attribute is listed. */
  function Listing(attrs: seq<Attribute>, parseMapped: AddressParser): seq<Line>
  {
    var shown := AttributeLines(attrs, parseMapped);
    if shown == [] then [] else [Banner] + shown
  }

  /**
   * printAttributes: the banner "Attributes:", printed once before the first listed
   * attribute and only if there is one, then one line per attribute that
   * is not hidden, in order.
   */
  method PrintAttributes(attrs: seq<Attribute>, parseMapped: AddressParser) returns (lines: seq<Line>)
    ensures lines == Listing(attrs, parseMapped)
  {
    lines := [];
    if |attrs| == 0 {
      return;
    }
    var headerPrinted := false;
    for i := 0 to |attrs|
      invariant headerPrinted <==> AttributeLines(attrs[..i], parseMapped) != []
      invariant lines == if headerPrinted then [Banner] + AttributeLines(attrs[..i], parseMapped) else []
    {
      assert attrs[..i + 1][..i] == attrs[..i];
      var a := attrs[i];
      if a.typ in Hidden {
        continue;
      }
      if !headerPrinted {
        lines := lines + [Banner];
        headerPrinted := true;
      }
      lines := lines + [AttributeLine(a, parseMapped)];
    }
    assert attrs[..|attrs|] == attrs;
  }

  /** The banner is printed at most once, and always first. */
  lemma BannerOnce(attrs: seq<Attribute>, parseMapped: AddressParser)
    ensures var lines := Listing(attrs, parseMapped);
      && |lines| == (if AttributeLines(attrs, parseMapped) == [] then 0 else |AttributeLines(attrs, parseMapped)| + 1)
      && forall k :: 0 <= k < |lines| ==> (lines[k] == Banner <==> k == 0)
  {
  }

  /**
   * Neither RFC 5780 attribute has a name in the attribute tables, so a
   * decodable one is always listed as non-standard, with its address.
   */
  lemma MappedNonStandard(a: Attribute, parseMapped: AddressParser)
    requires IsMapped(a.typ) && parseMapped(a.value).Ok?
    ensures AttributeLine(a, parseMapped).NonStandard?
  {
    UnnamedAttribute(a.typ);
  }

  /** AttributeTypeString knows neither RFC 5780 code. */
  lemma UnnamedAttribute(typ: u16)
    requires IsMapped(typ)
    ensures AttributeTypeString(typ) == ""
  {
    StunAttrTable();
    UnnamedCode(typ, AttrNames.Keys, TurnAttrNames.Keys, TurnTcpAttrNames.Keys);
    assert typ !in AttrNames && typ !in TurnAttrNames && typ !in TurnTcpAttrNames;
  }

  /** The two RFC 5780 codes lie outside the three attribute code sets. */
  lemma UnnamedCode(typ: u16, stun: set<u16>, turn: set<u16>, tcp: set<u16>)
    requires IsMapped(typ)
    requires stun == {0x0001, 0x0006, 0x0008, 0x0009, 0x000a, 0x0014, 0x0015, 0x0017, 0x0020, 0x8022, 0x8023, 0x8028}
    requires turn == {0x0c, 0x0d, 0x10, 0x12, 0x13, 0x16, 0x18, 0x19, 0x1a, 0x21, 0x22}
    requires tcp == {0x002a}
    ensures typ !in stun + turn + tcp
  {
  }
}
