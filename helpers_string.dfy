/**
 * internal/helpers_string.go: the names of methods, classes, attributes,
 * transports and address families, looked up in the STUN table first,
 * then the TURN table, then the TURN-TCP table; "" when none knows the
 * code.
 */
module HelpersString {
  import opened Bytes
  import opened TypesStun
  import opened TypesTurn
  import opened TypesTurnTcp

  /** Every method any of the three protocols names. */
  const AllMethodNames: map<u16, string> := MsgTypeMethodNames + TurnMsgTypeMethodNames + TurnTcpMsgTypeMethodNames

  /** Every attribute any of the three protocols names. */
  const AllAttrNames: map<u16, string> := AttrNames + TurnAttrNames + TurnTcpAttrNames

  /** The three method tables share no code and name every method with a non-empty string. */
  lemma MethodTablesDisjoint()
    ensures MsgTypeMethodNames.Keys !! TurnMsgTypeMethodNames.Keys
    ensures MsgTypeMethodNames.Keys !! TurnTcpMsgTypeMethodNames.Keys
    ensures TurnMsgTypeMethodNames.Keys !! TurnTcpMsgTypeMethodNames.Keys
    ensures AllMethodNames.Keys == {0x01, 0x03, 0x04, 0x06, 0x07, 0x08, 0x09, 0x0a, 0x0b, 0x0c}
    ensures forall m :: m in AllMethodNames ==> AllMethodNames[m] != ""
  {
    MethodTableKeys();
    var stun, turn, tcp := MsgTypeMethodNames.Keys, TurnMsgTypeMethodNames.Keys, TurnTcpMsgTypeMethodNames.Keys;
    assert AllMethodNames.Keys == stun + turn + tcp;
    forall m | m in AllMethodNames ensures AllMethodNames[m] != "" {
      if m in TurnTcpMsgTypeMethodNames {
        assert AllMethodNames[m] == TurnTcpMsgTypeMethodNames[m];
      } else if m in TurnMsgTypeMethodNames {
        assert AllMethodNames[m] == TurnMsgTypeMethodNames[m];
      } else {
        assert AllMethodNames[m] == MsgTypeMethodNames[m];
      }
    }
  }

  /** The codes of the three method tables. */
  lemma MethodTableKeys()
    ensures MsgTypeMethodNames.Keys == {0x01}
    ensures TurnMsgTypeMethodNames.Keys == {0x03, 0x04, 0x06, 0x07, 0x08, 0x09}
    ensures TurnTcpMsgTypeMethodNames.Keys == {0x0a, 0x0b, 0x0c}
    ensures forall m :: m in MsgTypeMethodNames ==> MsgTypeMethodNames[m] != ""
    ensures forall m :: m in TurnMsgTypeMethodNames ==> TurnMsgTypeMethodNames[m] != ""
    ensures forall m :: m in TurnTcpMsgTypeMethodNames ==> TurnTcpMsgTypeMethodNames[m] != ""
  {
  }

  lemma StunAttrTable()
    ensures AttrNames.Keys == {0x0001, 0x0006, 0x0008, 0x0009, 0x000a, 0x0014, 0x0015, 0x0017, 0x0020, 0x8022, 0x8023, 0x8028}
    ensures forall a :: a in AttrNames ==> AttrNames[a] != ""
  {
  }

  lemma TurnAttrNamesNonEmpty()
    ensures forall a :: a in TurnAttrNames ==> TurnAttrNames[a] != ""
  {
  }

  /** The three attribute tables share no code. */
  lemma AttrTablesDisjoint()
    ensures AttrNames.Keys !! TurnAttrNames.Keys
    ensures AttrNames.Keys !! TurnTcpAttrNames.Keys
    ensures TurnAttrNames.Keys !! TurnTcpAttrNames.Keys
  {
    StunAttrTable();
    TurnAttrTable();
    var stun, turn, tcp := AttrNames.Keys, TurnAttrNames.Keys, TurnTcpAttrNames.Keys;
    StunTurnCodesDisjoint(stun, turn);
    assert tcp == {0x002a};
    assert 0x002a !in stun && 0x002a !in turn;
  }

  /** The STUN attribute codes and the TURN attribute codes, as plain sets, do not meet. */
  lemma StunTurnCodesDisjoint(stun: set<u16>, turn: set<u16>)
    requires stun == {0x0001, 0x0006, 0x0008, 0x0009, 0x000a, 0x0014, 0x0015, 0x0017, 0x0020, 0x8022, 0x8023, 0x8028}
    requires turn == {0x0c, 0x0d, 0x10, 0x12, 0x13, 0x16, 0x18, 0x19, 0x1a, 0x21, 0x22}
    ensures stun !! turn
  {
    forall a | a in stun ensures a !in turn {}
  }

  /** Every attribute any table knows has a non-empty name. */
  lemma AllAttrNamesNonEmpty()
    ensures forall a :: a in AllAttrNames ==> AllAttrNames[a] != ""
  {
    forall a | a in AllAttrNames ensures AllAttrNames[a] != "" {
      if a in TurnTcpAttrNames {
      } else if a in TurnAttrNames {
        TurnAttrNamesNonEmpty();
      } else {
        StunAttrTable();
      }
    }
  }

  /**
   * MessageTypeMethodString: the tables do not overlap, so the lookup order
   * does not matter and the result is the name in their union.
   */
  function MessageTypeMethodString(m: u16): (s: string)
    ensures s == (if m in AllMethodNames then AllMethodNames[m] else "")
    ensures s != "" <==> m in AllMethodNames
  {
    MethodTablesDisjoint();
    if m in MsgTypeMethodNames then MsgTypeMethodNames[m]
    else if m in TurnMsgTypeMethodNames then TurnMsgTypeMethodNames[m]
    else if m in TurnTcpMsgTypeMethodNames then TurnTcpMsgTypeMethodNames[m]
    else ""
  }

  /** MessageTypeClassString: the four classes 0..3 are named, anything else is "". */
  function MessageTypeClassString(c: byte): (s: string)
    ensures c <= 3 ==> s == ["Request", "Indication", "Success Response", "Error Response"][c]
    ensures c > 3 ==> s == ""
  {
    if c in MsgTypeClassNames then MsgTypeClassNames[c] else ""
  }

  /** AttributeTypeString: the name in the union of the three disjoint tables, "" for an unknown code. */
  function AttributeTypeString(a: u16): (s: string)
    ensures s == (if a in AllAttrNames then AllAttrNames[a] else "")
    ensures s != "" <==> a in AllAttrNames
  {
    AttrTablesDisjoint();
    AllAttrNamesNonEmpty();
    if a in AttrNames then AttrNames[a]
    else if a in TurnAttrNames then TurnAttrNames[a]
    else if a in TurnTcpAttrNames then TurnTcpAttrNames[a]
    else ""
  }

  /** RequestedTransportString: 6 is "TCP", 17 is "UDP", anything else is "". */
  function RequestedTransportString(r: u32): (s: string)
    ensures r == 6 ==> s == "TCP"
    ensures r == 0x11 ==> s == "UDP"
    ensures r != 6 && r != 0x11 ==> s == ""
  {
    if r in RequestedTransportNames then RequestedTransportNames[r] else ""
  }

  /** RequestedAddressFamilyString: 0, 1, 2 are "None", "IPv4", "IPv6"; anything else is "". */
  function RequestedAddressFamilyString(r: byte): (s: string)
    ensures r <= 2 ==> s == ["None", "IPv4", "IPv6"][r]
    ensures r > 2 ==> s == ""
  {
    if r in AllocateProtocolNames then AllocateProtocolNames[r] else ""
  }

  /** Every request method the builders use has a name. */
  lemma RequestMethodsNamed()
    ensures MessageTypeMethodString(MsgTypeMethodBinding) == "Binding"
    ensures MessageTypeMethodString(MsgTypeMethodAllocate) == "Allocate"
    ensures MessageTypeMethodString(MsgTypeMethodConnect) == "Connect"
    ensures MessageTypeMethodString(0x0d) == ""
  {
  }
}
