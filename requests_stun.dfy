/**
 * internal/requests_stun.go: the Binding request. Every builder in this
 * model takes the transaction ID that newStun drew as a parameter.
 */
module RequestsStun {
  import opened Results
  import opened Bytes
  import opened TypesStun
  import opened ParsersStun
  import opened StunCodec

  /** The types of a list of attributes, in order. */
  function TypesOf(attrs: seq<Attribute>): (r: seq<u16>)
    ensures |r| == |attrs| && forall i :: 0 <= i < |attrs| ==> r[i] == attrs[i].typ
  {
    if |attrs| == 0 then [] else [attrs[0].typ] + TypesOf(attrs[1..])
  }

  /** An attribute written as a Go literal {Type, Value}: the length is left 0 for Serialize to fill in. */
  function Attr(typ: u16, value: seq<byte>): (a: Attribute)
    ensures a.typ == typ && a.value == value && a.length == 0 && a.padding == 0
  {
    Attribute(typ, 0, value, 0)
  }

  /** newStun with its random transaction ID given: no attributes, no credentials. */
  function Fresh(transactionId: seq<byte>): (s: Stun)
    ensures s.header.transactionId == transactionId && s.attributes == []
    ensures s.username == [] && s.password == []
  {
    Stun(Header(MessageType(0, 0), 0, transactionId), [], [], [])
  }

  /** BindingRequest: class Request, method Binding, no attributes and no credentials. */
  function BindingRequest(transactionId: seq<byte>): (s: Stun)
    ensures s.header.messageType == MessageType(MsgTypeClassRequest, MsgTypeMethodBinding)
    ensures s.header.transactionId == transactionId
    ensures s.attributes == [] && s.username == [] && s.password == []
  {
    var s := Fresh(transactionId);
    s.(header := s.header.(messageType := MessageType(MsgTypeClassRequest, MsgTypeMethodBinding)))
  }

  /**
   * A Binding request serializes to its 20-byte header alone: type 0x0001,
   * length 0, the cookie and the ID, with no MESSAGE-INTEGRITY.
   */
  lemma BindingRequestSerialized(transactionId: seq<byte>, mac: Mac)
    requires transactionId != []
    ensures SerializeSpec(BindingRequest(transactionId), mac) == Ok([0x00, 0x01, 0x00, 0x00] + MagicCookie + transactionId)
  {
    var s := BindingRequest(transactionId);
    BindingTypeVectors();
    assert !Authenticated(s.attributes);
    assert AttributeBlock(s.attributes) == [];
    assert HeaderBytes(s) == [0x00, 0x01] + [0x00, 0x00] + MagicCookie + transactionId;
    assert SerializeSpec(s, mac) == Ok(HeaderBytes(s) + AttributeBlock(s.attributes));
    assert HeaderBytes(s) + [] == HeaderBytes(s);
    assert [0x00, 0x01] + [0x00, 0x00] == [0x00, 0x01, 0x00, 0x00];
  }

  /** A Binding request built by newStun round-trips through fromBytes. */
  lemma BindingRequestRoundTrip(transactionId: seq<byte>, mac: Mac)
    requires |transactionId| == 12
    ensures var data := SerializeSpec(BindingRequest(transactionId), mac).value;
      && |data| == HeaderSize
      && AttributesFramed(data) && FromBytes(data).Ok?
      && FromBytes(data).value.header == Header(MessageType(MsgTypeClassRequest, MsgTypeMethodBinding), 0, transactionId)
      && FromBytes(data).value.attributes == []
  {
    var s := BindingRequest(transactionId);
    BindingRequestSerialized(transactionId, mac);
    UnauthenticatedLayout(s, mac);
    SerializeRoundTrip(s, mac);
  }
}
