/**
 * internal/stun.go: building a STUN object, serializing it with an
 * optional MESSAGE-INTEGRITY attribute (section 15.4 of RFC 5389), and
 * looking attributes up in it.
 */
module StunCodec {
  import opened Results
  import opened Bytes
  import opened Text
  import opened Helper
  import opened TypesStun
  import opened ParsersStun

  /**
   * calculateMessageIntegrity(buf, username, realm, password): HMAC-SHA1
   * keyed with MD5(username:realm:password). The hash functions are not
   * modelled; any function of the four inputs stands in for it.
   */
  type Mac = (seq<byte>, seq<byte>, seq<byte>, seq<byte>) -> seq<byte>

  /** The 20-byte placeholder written where the integrity value goes. */
  const Placeholder: seq<byte> := Ascii("_DUMMYDATADUMMYDATA_")

  lemma PlaceholderFacts()
    ensures |Placeholder| == 20 && Placeholder[0] == 0x5f
    ensures forall i :: 0 <= i < 20 ==> Placeholder[i] != 0
  {
  }

  /** newStun: an empty message with a 12-letter random transaction ID. */
  method NewStun(picks: seq<nat>) returns (s: Stun)
    requires |picks| == 12 && forall i :: 0 <= i < 12 ==> picks[i] < 52
    ensures |s.header.transactionId| == 12
    ensures forall i :: 0 <= i < 12 ==> s.header.transactionId[i] == Ascii(Letters)[picks[i]]
    ensures s.header.messageType == MessageType(0, 0) && s.header.messageLength == 0
    ensures s.attributes == [] && s.username == [] && s.password == []
  {
    var id := RandomString(12, picks);
    LettersAreLetters();
    s := Stun(Header(MessageType(0, 0), 0, Ascii(id)), [], [], []);
  }

  // Attribute lookup.

  /** The index of the first attribute of type `typ`, if any. */
  function FindAttribute(attrs: seq<Attribute>, typ: u16): (r: Option<nat>)
    ensures r.Some? ==> r.value < |attrs| && attrs[r.value].typ == typ
                        && forall k :: 0 <= k < r.value ==> attrs[k].typ != typ
    ensures r.None? ==> forall k :: 0 <= k < |attrs| ==> attrs[k].typ != typ
  {
    if |attrs| == 0 then None
    else if attrs[0].typ == typ then Some(0)
    else match FindAttribute(attrs[1..], typ)
      case None => None
      case Some(i) => Some(i + 1)
  }

  /** GetAttribute: the first attribute of the requested type, else the empty Attribute{}. */
  function GetAttribute(s: Stun, typ: u16): (a: Attribute)
    ensures (exists k :: 0 <= k < |s.attributes| && s.attributes[k].typ == typ) ==>
              a.typ == typ && a in s.attributes
    ensures (forall k :: 0 <= k < |s.attributes| ==> s.attributes[k].typ != typ) ==> a == EmptyAttribute
    ensures forall k ::
              (0 <= k < |s.attributes| && s.attributes[k].typ == typ
               && forall j :: 0 <= j < k ==> s.attributes[j].typ != typ) ==> a == s.attributes[k]
  {
    match FindAttribute(s.attributes, typ)
    case None => EmptyAttribute
    case Some(i) => s.attributes[i]
  }

  /** Go panics inside ParseError when the first ERROR-CODE value is shorter than 4 bytes. */
  predicate ErrorCodeReadable(s: Stun)
  {
    FindAttribute(s.attributes, AttrErrorCode).Some? ==> |GetAttribute(s, AttrErrorCode).value| >= 4
  }

  /**
   * GetErrorString: "" without an ERROR-CODE attribute, else
   * "Error <code>: <text>" for the first one, replacing a blank text by a
   * table name a second time.
   */
  function GetErrorString(s: Stun): (r: seq<byte>)
    requires ErrorCodeReadable(s)
  {
    match FindAttribute(s.attributes, AttrErrorCode)
    case None => []
    case Some(i) =>
      var e := ParseError(s.attributes[i].value);
      var text := if IsBlankUtf8(e.text) then Ascii(FallbackErrorText(e.code)) else e.text;
      Ascii("Error ") + Decimal(e.code) + Ascii(": ") + text
  }

  /**
   * GetErrorString is empty exactly when there is no ERROR-CODE attribute,
   * and otherwise reports ParseError's code and text: its second fallback
   * never applies, since ParseError never returns a blank text.
   */
  lemma GetErrorStringShape(s: Stun)
    requires ErrorCodeReadable(s)
    ensures GetErrorString(s) == [] <==> FindAttribute(s.attributes, AttrErrorCode).None?
    ensures FindAttribute(s.attributes, AttrErrorCode).Some? ==>
              var e := ParseError(GetAttribute(s, AttrErrorCode).value);
              GetErrorString(s) == Ascii("Error ") + Decimal(e.code) + Ascii(": ") + e.text
  {
    match FindAttribute(s.attributes, AttrErrorCode)
    case None =>
    case Some(i) =>
      ParseErrorTextNotBlank(s.attributes[i].value);
  }

  // bytes.ReplaceAll.

  /** `p` occurs in `s` at index `i`. */
  predicate MatchAt(s: seq<byte>, p: seq<byte>, i: nat)
  {
    i + |p| <= |s| && s[i..i + |p|] == p
  }

  /** `p` occurs somewhere in `s`. */
  ghost predicate Occurs(s: seq<byte>, p: seq<byte>)
  {
    exists i: nat :: MatchAt(s, p, i)
  }

  /** bytes.ReplaceAll with a non-empty pattern: leftmost, non-overlapping matches. */
  function ReplaceAll(s: seq<byte>, pat: seq<byte>, rep: seq<byte>): (r: seq<byte>)
    requires |pat| > 0
    decreases |s|
  {
    if |s| < |pat| then s
    else if s[..|pat|] == pat then rep + ReplaceAll(s[|pat|..], pat, rep)
    else [s[0]] + ReplaceAll(s[1..], pat, rep)
  }

  /** Dropping `k` leading bytes moves every match `k` places left. */
  lemma MatchAtDrop(s: seq<byte>, p: seq<byte>, i: nat, k: nat)
    requires k <= |s|
    ensures MatchAt(s[k..], p, i) <==> MatchAt(s, p, i + k)
  {
    if i + |p| <= |s[k..]| {
      assert s[k..][i..i + |p|] == s[i + k..i + k + |p|];
    }
  }

  /** One step of ReplaceAll, phrased with MatchAt. */
  lemma ReplaceAllStep(s: seq<byte>, pat: seq<byte>, rep: seq<byte>)
    requires 0 < |pat| <= |s|
    ensures MatchAt(s, pat, 0) ==> ReplaceAll(s, pat, rep) == rep + ReplaceAll(s[|pat|..], pat, rep)
    ensures !MatchAt(s, pat, 0) ==> ReplaceAll(s, pat, rep) == [s[0]] + ReplaceAll(s[1..], pat, rep)
  {
    assert s[0..|pat|] == s[..|pat|];
  }

  /** Without an occurrence, ReplaceAll changes nothing. */
  lemma {:induction false} ReplaceAllNoMatch(s: seq<byte>, pat: seq<byte>, rep: seq<byte>)
    requires |pat| > 0 && !Occurs(s, pat)
    ensures ReplaceAll(s, pat, rep) == s
    decreases |s|
  {
    if |s| >= |pat| {
      assert !MatchAt(s, pat, 0);
      ReplaceAllStep(s, pat, rep);
      forall i: nat ensures !MatchAt(s[1..], pat, i) {
        MatchAtDrop(s, pat, i, 1);
      }
      ReplaceAllNoMatch(s[1..], pat, rep);
      assert s == [s[0]] + s[1..];
    }
  }

  /** No occurrence of `p` starts inside `a` and ends inside `b`. */
  ghost predicate NoStraddle(a: seq<byte>, b: seq<byte>, p: seq<byte>)
  {
    forall i: nat :: i < |a| < i + |p| ==> !MatchAt(a + b, p, i)
  }

  /** Dropping leading bytes of `a` keeps the cut free of straddling matches. */
  lemma NoStraddleDrop(a: seq<byte>, b: seq<byte>, p: seq<byte>, k: nat)
    requires k <= |a| && NoStraddle(a, b, p)
    ensures NoStraddle(a[k..], b, p)
  {
    assert (a + b)[k..] == a[k..] + b;
    forall i: nat | i < |a[k..]| < i + |p| ensures !MatchAt(a[k..] + b, p, i) {
      MatchAtDrop(a + b, p, i, k);
    }
  }

  /** ReplaceAll on a string shorter than the pattern changes nothing. */
  lemma ReplaceAllShort(a: seq<byte>, pat: seq<byte>, rep: seq<byte>)
    requires |a| < |pat|
    ensures ReplaceAll(a, pat, rep) == a
  {
  }

  /** ReplaceAll works piecewise when no occurrence straddles the cut. */
  lemma {:induction false} ReplaceAllAppend(a: seq<byte>, b: seq<byte>, pat: seq<byte>, rep: seq<byte>)
    requires |pat| > 0 && NoStraddle(a, b, pat)
    ensures ReplaceAll(a + b, pat, rep) == ReplaceAll(a, pat, rep) + ReplaceAll(b, pat, rep)
    decreases |a|, 1
  {
    var s := a + b;
    if |a| == 0 {
      assert s == b;
    } else if |s| < |pat| {
      ReplaceAllShort(a, pat, rep);
      ReplaceAllShort(b, pat, rep);
    } else if |a| >= |pat| && MatchAt(a, pat, 0) {
      ReplaceAllAppendMatch(a, b, pat, rep);
    } else {
      ReplaceAllAppendSkip(a, b, pat, rep);
    }
  }

  /** ReplaceAllAppend when `a` starts with the pattern. */
  lemma {:induction false} ReplaceAllAppendMatch(a: seq<byte>, b: seq<byte>, pat: seq<byte>, rep: seq<byte>)
    requires |pat| > 0 && NoStraddle(a, b, pat) && |a| >= |pat| && MatchAt(a, pat, 0)
    ensures ReplaceAll(a + b, pat, rep) == ReplaceAll(a, pat, rep) + ReplaceAll(b, pat, rep)
    decreases |a|, 0
  {
    var s := a + b;
    assert s[..|pat|] == a[..|pat|];
    ReplaceAllStep(s, pat, rep);
    ReplaceAllStep(a, pat, rep);
    assert s[|pat|..] == a[|pat|..] + b;
    NoStraddleDrop(a, b, pat, |pat|);
    ReplaceAllAppend(a[|pat|..], b, pat, rep);
  }

  /** ReplaceAllAppend when `a + b` does not start with the pattern. */
  lemma {:induction false} ReplaceAllAppendSkip(a: seq<byte>, b: seq<byte>, pat: seq<byte>, rep: seq<byte>)
    requires |pat| > 0 && NoStraddle(a, b, pat) && |a| > 0 && |a + b| >= |pat|
    requires !(|a| >= |pat| && MatchAt(a, pat, 0))
    ensures ReplaceAll(a + b, pat, rep) == ReplaceAll(a, pat, rep) + ReplaceAll(b, pat, rep)
    decreases |a|, 0
  {
    var s := a + b;
    assert !MatchAt(s, pat, 0) by {
      if |a| >= |pat| {
        assert s[..|pat|] == a[..|pat|];
      }
    }
    ReplaceAllHead(s, pat, rep);
    ReplaceAllHead(a, pat, rep);
    assert s[1..] == a[1..] + b && s[0] == a[0];
    NoStraddleDrop(a, b, pat, 1);
    ReplaceAllAppend(a[1..], b, pat, rep);
    var ra, rb := ReplaceAll(a[1..], pat, rep), ReplaceAll(b, pat, rep);
    assert [a[0]] + (ra + rb) == ([a[0]] + ra) + rb;
  }

  /** A first byte that does not start a match is kept as it is. */
  lemma ReplaceAllHead(s: seq<byte>, pat: seq<byte>, rep: seq<byte>)
    requires |pat| > 0 && |s| > 0 && !(|s| >= |pat| && MatchAt(s, pat, 0))
    ensures ReplaceAll(s, pat, rep) == [s[0]] + ReplaceAll(s[1..], pat, rep)
  {
    if |s| < |pat| {
      ReplaceAllShort(s[1..], pat, rep);
      assert s == [s[0]] + s[1..];
    } else {
      ReplaceAllStep(s, pat, rep);
    }
  }

  // Stun.Serialize.

  /** Some attribute is a USERNAME: the message gets a MESSAGE-INTEGRITY attribute. */
  predicate Authenticated(attrs: seq<Attribute>)
  {
    exists k :: 0 <= k < |attrs| && attrs[k].typ == AttrUsername
  }

  /** The MESSAGE-INTEGRITY attribute header followed by the placeholder. */
  function IntegrityStub(): (r: seq<byte>)
    ensures |r| == 24
  {
    PutUint16(AttrMessageIntegrity) + PutUint16(MessageIntegritySize) + Placeholder
  }

  /** The attribute block: the serialized attributes, then the integrity stub when authenticated. */
  function AttributeBlock(attrs: seq<Attribute>): (r: seq<byte>)
  {
    SerializeAttributes(attrs) + (if Authenticated(attrs) then IntegrityStub() else [])
  }

  /** The 20-byte header as Serialize writes it: type, block length, cookie, transaction ID. */
  function HeaderBytes(s: Stun): (r: seq<byte>)
  {
    SerializeType(s.header.messageType) + PutUint16(ToU16(|AttributeBlock(s.attributes)|))
    + MagicCookie + s.header.transactionId
  }

  /** What Stun.Serialize returns. */
  function SerializeSpec(s: Stun, mac: Mac): (r: Result<seq<byte>, string>)
  {
    if s.header.transactionId == [] then Err("missing transaction ID")
    else
      var buf := HeaderBytes(s) + AttributeBlock(s.attributes);
      if Authenticated(s.attributes) then
        var realm := GetAttribute(s, AttrRealm).value;
        var integrityPos := |SerializeAttributes(s.attributes)|;
        var m := mac(buf[..integrityPos + HeaderSize], s.username, realm, s.password);
        Ok(ReplaceAll(buf, Placeholder, m))
      else Ok(buf)
  }

  /**
   * The attribute loop of Stun.Serialize: serialize the attributes in order
   * and note whether any of them is a USERNAME.
   */
  method SerializeAttributeList(attrs: seq<Attribute>) returns (attributes: seq<byte>, authenticated: bool)
    ensures attributes == SerializeAttributes(attrs)
    ensures authenticated <==> exists k :: 0 <= k < |attrs| && attrs[k].typ == AttrUsername
  {
    attributes := [];
    authenticated := false;
    for i := 0 to |attrs|
      invariant attributes == SerializeAttributes(attrs[..i])
      invariant authenticated <==> Authenticated(attrs[..i])
    {
      SerializeStep(attrs, i);
      attributes := attributes + SerializeAttribute(attrs[i]);
      if attrs[i].typ == AttrUsername {
        authenticated := true;
      }
    }
    assert attrs[..|attrs|] == attrs;
  }

  /**
   * Stun.Serialize: serialize the attributes, append the integrity stub when
   * a USERNAME was seen, prefix the header, and patch the integrity value in
   * over the placeholder.
   */
  method Serialize(s: Stun, mac: Mac) returns (r: Result<seq<byte>, string>)
    ensures r == SerializeSpec(s, mac)
  {
    var attributes, authenticated := SerializeAttributeList(s.attributes);
    var integrityPos := |attributes|;
    // the integrity stub: type, length 20, placeholder
    attributes := attributes + if authenticated then IntegrityStub() else [];
    var buf := SerializeType(s.header.messageType) + PutUint16(ToU16(|attributes|)) + MagicCookie;
    if s.header.transactionId == [] {
      return Err("missing transaction ID");
    }
    buf := buf + s.header.transactionId + attributes;
    if authenticated {
      var realm := GetAttribute(s, AttrRealm).value;
      var messageInt := mac(buf[..integrityPos + HeaderSize], s.username, realm, s.password);
      buf := ReplaceAll(buf, Placeholder, messageInt);
    }
    return Ok(buf);
  }

  /** One more attribute through the Serialize loop. */
  lemma SerializeStep(attrs: seq<Attribute>, i: nat)
    requires i < |attrs|
    ensures SerializeAttributes(attrs[..i + 1]) == SerializeAttributes(attrs[..i]) + SerializeAttribute(attrs[i])
    ensures Authenticated(attrs[..i + 1]) <==> Authenticated(attrs[..i]) || attrs[i].typ == AttrUsername
  {
    assert attrs[..i + 1] == attrs[..i] + [attrs[i]];
    SerializeAttributesAppend(attrs[..i], attrs[i]);
    if Authenticated(attrs[..i]) {
      var k :| 0 <= k < i && attrs[..i][k].typ == AttrUsername;
      assert attrs[..i + 1][k].typ == AttrUsername;
    }
    if attrs[i].typ == AttrUsername {
      assert attrs[..i + 1][i].typ == AttrUsername;
    }
  }

  /** Serialize fails exactly when the transaction ID is empty. */
  lemma SerializeFailsIff(s: Stun, mac: Mac)
    ensures SerializeSpec(s, mac).Err? <==> s.header.transactionId == []
    ensures SerializeSpec(s, mac).Err? ==> SerializeSpec(s, mac).error == "missing transaction ID"
  {
  }

  /** The header bytes: type, the length of the attribute block, the cookie, then the transaction ID. */
  lemma HeaderLayout(s: Stun)
    ensures var h := HeaderBytes(s);
      && |h| == 8 + |s.header.transactionId|
      && h[0..2] == SerializeType(s.header.messageType)
      && ReadU16(h[2..4]) == |AttributeBlock(s.attributes)| % 0x1_0000
      && h[4..8] == MagicCookie && h[8..] == s.header.transactionId
  {
  }

  /** The integrity attribute Serialize ends with once the placeholder is replaced by `m`. */
  function IntegrityAttribute(m: seq<byte>): Attribute
  {
    Attribute(AttrMessageIntegrity, MessageIntegritySize, m, 0)
  }

  /** A window covering a zero byte does not hold the placeholder. */
  lemma ZeroBlocksMatch(x: seq<byte>, i: nat, j: nat)
    requires i <= j < i + 20 && j < |x| && x[j] == 0
    ensures !MatchAt(x, Placeholder, i)
  {
    PlaceholderFacts();
    if i + 20 <= |x| {
      assert x[i..i + 20][j - i] == x[j];
    }
  }

  /** A window starting at a byte other than '_' does not hold the placeholder. */
  lemma FirstByteBlocksMatch(x: seq<byte>, i: nat)
    requires i < |x| && x[i] != 0x5f
    ensures !MatchAt(x, Placeholder, i)
  {
    PlaceholderFacts();
    if i + 20 <= |x| {
      assert x[i..i + 20][0] == x[i];
    }
  }

  /** No placeholder straddles the end of the attributes, since the stub starts with a zero byte. */
  lemma StubNoStraddle(prefix: seq<byte>)
    ensures NoStraddle(prefix, IntegrityStub(), Placeholder)
  {
    var x := prefix + IntegrityStub();
    assert x[|prefix|] == 0;
    forall i: nat | i < |prefix| < i + |Placeholder| ensures !MatchAt(x, Placeholder, i) {
      ZeroBlocksMatch(x, i, |prefix|);
    }
  }

  /** The integrity stub turns into its header followed by the integrity value. */
  lemma ReplaceStub(m: seq<byte>)
    ensures ReplaceAll(IntegrityStub(), Placeholder, m) == IntegrityBytes(m)
  {
    PlaceholderFacts();
    var tag: seq<byte> := [0, 8, 0, 20];
    assert IntegrityStub() == tag + Placeholder;
    forall i: nat | i < |tag| < i + |Placeholder| ensures !MatchAt(tag + Placeholder, Placeholder, i) {
      FirstByteBlocksMatch(tag + Placeholder, i);
    }
    ReplaceAllAppend(tag, Placeholder, Placeholder, m);
    ReplaceAllShort(tag, Placeholder, m);
    ReplaceAllStep(Placeholder, Placeholder, m);
    assert Placeholder[20..] == [];
  }

  /** The bytes Serialize appends for MESSAGE-INTEGRITY once the placeholder is replaced by `m`. */
  function IntegrityBytes(m: seq<byte>): (r: seq<byte>)
    ensures |r| == 4 + |m| && r[..4] == [0, 8, 0, 20] && r[4..] == m
  {
    PutUint16(AttrMessageIntegrity) + PutUint16(MessageIntegritySize) + m
  }

  /** A 20-byte value makes IntegrityBytes the serialized IntegrityAttribute. */
  lemma IntegrityBytesAttribute(m: seq<byte>)
    requires |m| == 20
    ensures IntegrityBytes(m) == SerializeAttribute(IntegrityAttribute(m))
  {
    var a := IntegrityAttribute(m);
    var r := SerializeAttribute(a);
    assert |r| == 24;
    assert r[..4] == [0, 8, 0, 20];
    assert r[4..24] == m;
    assert r == r[..4] + r[4..24];
  }

  /** The placeholder patch on the authenticated buffer only touches the stub. */
  lemma ReplaceTail(prefix: seq<byte>, m: seq<byte>)
    requires !Occurs(prefix, Placeholder)
    ensures ReplaceAll(prefix + IntegrityStub(), Placeholder, m) == prefix + IntegrityBytes(m)
  {
    PlaceholderFacts();
    StubNoStraddle(prefix);
    ReplaceAllAppend(prefix, IntegrityStub(), Placeholder, m);
    ReplaceAllNoMatch(prefix, Placeholder, m);
    ReplaceStub(m);
  }

  /**
   * Serialize as evidently intended: the header, the attributes in list
   * order and, when some attribute is a USERNAME, a MESSAGE-INTEGRITY
   * header and value, the MAC of everything before it (with the length
   * field already counting it), keyed by username, first REALM and
   * password. Unlike SerializeSpec it writes the value in place of the
   * stub only, never over attribute bytes that happen to equal the
   * placeholder.
   */
  function SerializeIntended(s: Stun, mac: Mac): (r: Result<seq<byte>, string>)
    ensures r.Err? <==> s.header.transactionId == []
  {
    if s.header.transactionId == [] then Err("missing transaction ID")
    else
      var prefix := HeaderBytes(s) + SerializeAttributes(s.attributes);
      if Authenticated(s.attributes) then
        Ok(prefix + IntegrityBytes(mac(prefix, s.username, GetAttribute(s, AttrRealm).value, s.password)))
      else Ok(prefix)
  }

  /**
   * With a 12-byte transaction ID (so that the header is HeaderSize bytes)
   * and no copy of the placeholder before the stub, Serialize does what was
   * intended.
   */
  lemma SerializeLayout(s: Stun, mac: Mac)
    requires |s.header.transactionId| == 12
    requires !Occurs(HeaderBytes(s) + SerializeAttributes(s.attributes), Placeholder)
    ensures SerializeSpec(s, mac) == SerializeIntended(s, mac)
  {
    var prefix := HeaderBytes(s) + SerializeAttributes(s.attributes);
    if Authenticated(s.attributes) {
      var buf := HeaderBytes(s) + AttributeBlock(s.attributes);
      assert buf == prefix + IntegrityStub();
      assert |HeaderBytes(s)| == 8 + |s.header.transactionId| by { HeaderLayout(s); }
      var macInput := buf[..|SerializeAttributes(s.attributes)| + HeaderSize];
      assert macInput == prefix;
      ReplaceTail(prefix, mac(macInput, s.username, GetAttribute(s, AttrRealm).value, s.password));
    } else {
      assert AttributeBlock(s.attributes) == SerializeAttributes(s.attributes);
    }
  }

  /** Without a USERNAME nothing is patched, so Serialize does what was intended. */
  lemma UnauthenticatedLayout(s: Stun, mac: Mac)
    requires !Authenticated(s.attributes)
    ensures SerializeSpec(s, mac) == SerializeIntended(s, mac)
  {
    assert AttributeBlock(s.attributes) == SerializeAttributes(s.attributes);
  }

  /** HMAC-SHA1 values are 20 bytes long. */
  ghost predicate MacWidth(mac: Mac)
  {
    forall b, u, r, p :: |mac(b, u, r, p)| == 20
  }

  /** The header Serialize writes parses back to the type, the block length and the ID. */
  lemma HeaderRoundTrip(s: Stun)
    requires |s.header.transactionId| == 12
    requires s.header.messageType.msgClass <= 3 && s.header.messageType.msgMethod <= 0x0f
    ensures |HeaderBytes(s)| == HeaderSize
    ensures ParseHeader(HeaderBytes(s))
      == Header(s.header.messageType, |AttributeBlock(s.attributes)| % 0x1_0000, s.header.transactionId)
  {
    var h := HeaderBytes(s);
    HeaderLayout(s);
    TypeRoundTrip(s.header.messageType);
    assert h[8..20] == h[8..];
  }

  /** The attributes a receiver sees: the list as sent, plus the integrity attribute when authenticated. */
  function SentAttributes(s: Stun, mac: Mac): (r: seq<Attribute>)
    ensures |r| == |s.attributes| + (if Authenticated(s.attributes) then 1 else 0)
    ensures forall i :: 0 <= i < |s.attributes| ==> r[i] == s.attributes[i]
  {
    if Authenticated(s.attributes) then
      var prefix := HeaderBytes(s) + SerializeAttributes(s.attributes);
      s.attributes + [IntegrityAttribute(mac(prefix, s.username, GetAttribute(s, AttrRealm).value, s.password))]
    else s.attributes
  }

  /** Every attribute sent serializes without loss. */
  lemma SentWellFormed(s: Stun, mac: Mac)
    requires forall i :: 0 <= i < |s.attributes| ==> WellFormed(s.attributes[i])
    requires Authenticated(s.attributes) ==> MacWidth(mac)
    ensures var sent := SentAttributes(s, mac); forall i :: 0 <= i < |sent| ==> WellFormed(sent[i])
  {
    var sent := SentAttributes(s, mac);
    forall i | 0 <= i < |sent| ensures WellFormed(sent[i]) {
      if i < |s.attributes| {
        assert sent[i] == s.attributes[i];
      } else {
        var prefix := HeaderBytes(s) + SerializeAttributes(s.attributes);
        assert |mac(prefix, s.username, GetAttribute(s, AttrRealm).value, s.password)| == 20;
      }
    }
  }

  /** The intended output is the header followed by the sent attributes, as long as the block Serialize counts. */
  lemma SentBytes(s: Stun, mac: Mac)
    requires s.header.transactionId != []
    requires Authenticated(s.attributes) ==> MacWidth(mac)
    ensures var sent := SentAttributes(s, mac);
      && SerializeIntended(s, mac) == Ok(HeaderBytes(s) + SerializeAttributes(sent))
      && |SerializeAttributes(sent)| == |AttributeBlock(s.attributes)|
  {
    if Authenticated(s.attributes) {
      var prefix := HeaderBytes(s) + SerializeAttributes(s.attributes);
      var m := mac(prefix, s.username, GetAttribute(s, AttrRealm).value, s.password);
      SentAuthenticated(HeaderBytes(s), s.attributes, m);
    } else {
      assert AttributeBlock(s.attributes) == SerializeAttributes(s.attributes);
    }
  }

  /** Appending the integrity attribute's bytes is serializing the list with that attribute appended. */
  lemma SentAuthenticated(h: seq<byte>, attrs: seq<Attribute>, m: seq<byte>)
    requires |m| == 20
    ensures h + SerializeAttributes(attrs) + IntegrityBytes(m) == h + SerializeAttributes(attrs + [IntegrityAttribute(m)])
    ensures |SerializeAttributes(attrs + [IntegrityAttribute(m)])| == |SerializeAttributes(attrs)| + |IntegrityStub()|
  {
    SignedBlock(attrs, m);
    ConcatAssoc(h, SerializeAttributes(attrs), IntegrityBytes(m));
  }

  /** The attribute block with the integrity attribute appended. */
  lemma SignedBlock(attrs: seq<Attribute>, m: seq<byte>)
    requires |m| == 20
    ensures SerializeAttributes(attrs + [IntegrityAttribute(m)]) == SerializeAttributes(attrs) + IntegrityBytes(m)
  {
    IntegrityBytesAttribute(m);
    SerializeAttributesAppend(attrs, IntegrityAttribute(m));
  }

  lemma ConcatAssoc(a: seq<byte>, b: seq<byte>, c: seq<byte>)
    ensures a + b + c == a + (b + c)
  {
  }

  /**
   * Round trip: what the intended serializer writes, fromBytes reads back
   * as the same message type, transaction ID and block length, and the
   * attributes in order (with their real lengths and padding), followed by
   * the MESSAGE-INTEGRITY attribute when one was added.
   */
  lemma SerializeRoundTrip(s: Stun, mac: Mac)
    requires |s.header.transactionId| == 12
    requires s.header.messageType.msgClass <= 3 && s.header.messageType.msgMethod <= 0x0f
    requires forall i :: 0 <= i < |s.attributes| ==> WellFormed(s.attributes[i])
    requires |AttributeBlock(s.attributes)| < 0x1_0000
    requires Authenticated(s.attributes) ==> MacWidth(mac)
    ensures SerializeIntended(s, mac).Ok?
    ensures var data := SerializeIntended(s, mac).value;
      && AttributesFramed(data) && FromBytes(data).Ok?
      && FromBytes(data).value.header
         == Header(s.header.messageType, |AttributeBlock(s.attributes)|, s.header.transactionId)
      && var sent := SentAttributes(s, mac);
         (forall i :: 0 <= i < |sent| ==> WellFormed(sent[i]))
         && FromBytes(data).value.attributes == NormalizedAll(sent)
  {
    var sent := SentAttributes(s, mac);
    HeaderRoundTrip(s);
    SentWellFormed(s, mac);
    SentBytes(s, mac);
    ParseSerialized(sent);
    FromBytesFrame(HeaderBytes(s), SerializeAttributes(sent));
  }

  /** Bytes without an underscore hold no placeholder, and none straddles their end. */
  lemma NoUnderscore(a: seq<byte>, b: seq<byte>)
    requires forall i :: 0 <= i < |a| ==> a[i] != 0x5f
    ensures !Occurs(a, Placeholder) && NoStraddle(a, b, Placeholder)
  {
    forall i: nat ensures !MatchAt(a, Placeholder, i) {
      if i < |a| {
        FirstByteBlocksMatch(a, i);
      }
    }
    forall i: nat | i < |a| < i + |Placeholder| ensures !MatchAt(a + b, Placeholder, i) {
      assert (a + b)[i] == a[i];
      FirstByteBlocksMatch(a + b, i);
    }
  }

  /** For an authenticated message with a 12-byte ID, Serialize patches the whole buffer with the MAC of the prefix. */
  lemma SpecAuthenticated(s: Stun, mac: Mac)
    requires |s.header.transactionId| == 12 && Authenticated(s.attributes)
    ensures var prefix := HeaderBytes(s) + SerializeAttributes(s.attributes);
      SerializeSpec(s, mac)
      == Ok(ReplaceAll(prefix + IntegrityStub(), Placeholder, mac(prefix, s.username, GetAttribute(s, AttrRealm).value, s.password)))
  {
    var prefix := HeaderBytes(s) + SerializeAttributes(s.attributes);
    var buf := HeaderBytes(s) + AttributeBlock(s.attributes);
    assert buf == prefix + IntegrityStub();
    assert |HeaderBytes(s)| == 8 + |s.header.transactionId| by { HeaderLayout(s); }
    assert buf[..|SerializeAttributes(s.attributes)| + HeaderSize] == prefix;
  }

  /** A trailing copy of the placeholder before the stub is replaced as well. */
  lemma ReplaceTrailing(a: seq<byte>, m: seq<byte>)
    requires forall i :: 0 <= i < |a| ==> a[i] != 0x5f
    ensures ReplaceAll(a + Placeholder + IntegrityStub(), Placeholder, m) == a + m + IntegrityBytes(m)
  {
    var t := Placeholder + IntegrityStub();
    assert a + Placeholder + IntegrityStub() == a + t;
    assert ReplaceAll(t, Placeholder, m) == m + IntegrityBytes(m) by {
      PlaceholderFacts();
      ReplaceAllStep(t, Placeholder, m);
      assert t[..20] == Placeholder;
      assert t[20..] == IntegrityStub();
      ReplaceStub(m);
    }
    assert ReplaceAll(a, Placeholder, m) == a by {
      NoUnderscore(a, t);
      ReplaceAllNoMatch(a, Placeholder, m);
    }
    assert ReplaceAll(a + t, Placeholder, m) == ReplaceAll(a, Placeholder, m) + ReplaceAll(t, Placeholder, m) by {
      PlaceholderFacts();
      NoUnderscore(a, t);
      ReplaceAllAppend(a, t, Placeholder, m);
    }
  }

  /**
   * When the header and attributes end with the placeholder and hold no
   * other underscore, Serialize replaces that copy too: the bytes before
   * the integrity attribute no longer end with what was sent.
   */
  lemma TrailingPlaceholderOverwritten(s: Stun, mac: Mac, a: seq<byte>)
    requires |s.header.transactionId| == 12 && Authenticated(s.attributes)
    requires forall i :: 0 <= i < |a| ==> a[i] != 0x5f
    requires HeaderBytes(s) + SerializeAttributes(s.attributes) == a + Placeholder
    ensures var m := mac(a + Placeholder, s.username, GetAttribute(s, AttrRealm).value, s.password);
      && SerializeSpec(s, mac) == Ok(a + m + IntegrityBytes(m))
      && SerializeIntended(s, mac) == Ok(a + Placeholder + IntegrityBytes(m))
  {
    SpecAuthenticated(s, mac);
    ReplaceTrailing(a, mac(a + Placeholder, s.username, GetAttribute(s, AttrRealm).value, s.password));
  }

  /**
   * A Binding request whose only attribute is a USERNAME equal to the
   * placeholder: Serialize overwrites the username with the integrity value
   * too, where the intended output keeps it.
   */
  lemma UsernameOverwritten(mac: Mac)
    ensures var u := Attribute(AttrUsername, 0, Placeholder, 0);
      var s := Stun(Header(MessageType(MsgTypeClassRequest, MsgTypeMethodBinding), 0, Zeros(12)), [u], [], []);
      var h := [0x00, 0x01, 0x00, 48] + MagicCookie + Zeros(12) + [0x00, 0x06, 0x00, 20];
      var m := mac(h + Placeholder, [], [], []);
      && SerializeSpec(s, mac) == Ok(h + m + IntegrityBytes(m))
      && SerializeIntended(s, mac) == Ok(h + Placeholder + IntegrityBytes(m))
  {
    var u := Attribute(AttrUsername, 0, Placeholder, 0);
    var s := Stun(Header(MessageType(MsgTypeClassRequest, MsgTypeMethodBinding), 0, Zeros(12)), [u], [], []);
    var a := [0x00, 0x01, 0x00, 48] + MagicCookie + Zeros(12) + [0x00, 0x06, 0x00, 20];
    assert Authenticated(s.attributes) by { assert s.attributes[0].typ == AttrUsername; }
    assert GetAttribute(s, AttrRealm) == EmptyAttribute;
    PlaceholderUsernameBytes();
    assert SerializeAttributes([u]) == SerializeAttribute(u);
    PlaceholderUsernameHeader();
    assert HeaderBytes(s) + SerializeAttributes(s.attributes) == a + Placeholder;
    assert forall i :: 0 <= i < |a| ==> a[i] != 0x5f;
    TrailingPlaceholderOverwritten(s, mac, a);
  }

  /** The USERNAME attribute holding the placeholder, serialized. */
  lemma PlaceholderUsernameBytes()
    ensures SerializeAttribute(Attribute(AttrUsername, 0, Placeholder, 0)) == [0x00, 0x06, 0x00, 20] + Placeholder
  {
    var su := SerializeAttribute(Attribute(AttrUsername, 0, Placeholder, 0));
    PlaceholderFacts();
    assert |su| == 24 && su[4..24] == Placeholder;
    assert su[0..2] == [0, 6] && su[2..4] == [0, 20];
  }

  /** The header of a Binding request carrying that attribute: 48 bytes of attributes once signed. */
  lemma PlaceholderUsernameHeader()
    ensures var u := Attribute(AttrUsername, 0, Placeholder, 0);
      var s := Stun(Header(MessageType(MsgTypeClassRequest, MsgTypeMethodBinding), 0, Zeros(12)), [u], [], []);
      HeaderBytes(s) == [0x00, 0x01, 0x00, 48] + MagicCookie + Zeros(12)
  {
    var u := Attribute(AttrUsername, 0, Placeholder, 0);
    var s := Stun(Header(MessageType(MsgTypeClassRequest, MsgTypeMethodBinding), 0, Zeros(12)), [u], [], []);
    assert Authenticated(s.attributes) by { assert s.attributes[0].typ == AttrUsername; }
    PlaceholderUsernameBytes();
    assert SerializeAttributes([u]) == SerializeAttribute(u);
    BindingTypeVectors();
    assert |AttributeBlock(s.attributes)| == 48;
  }
}
