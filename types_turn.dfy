/**
 * internal/types_turn.go: the TURN methods, attributes and error codes of
 * RFC 5766, the REQUESTED-ADDRESS-FAMILY values of RFC 6156, and their
 * name tables.
 */
module TypesTurn {
  import opened Bytes

  const MsgTypeMethodAllocate: u16 := 0x03
  const MsgTypeMethodRefresh: u16 := 0x04
  const MsgTypeMethodSend: u16 := 0x06
  const MsgTypeMethodDataInd: u16 := 0x07
  const MsgTypeMethodCreatePermission: u16 := 0x08
  const MsgTypeMethodChannelbind: u16 := 0x09

  const TurnMsgTypeMethodNames: map<u16, string> := map[
    MsgTypeMethodAllocate := "Allocate",
    MsgTypeMethodRefresh := "Refresh",
    MsgTypeMethodChannelbind := "Channel-Bind",
    MsgTypeMethodCreatePermission := "CreatePermission",
    MsgTypeMethodSend := "Send",
    MsgTypeMethodDataInd := "Data"
  ]

  const AttrChannelNumber: u16 := 0x000c
  const AttrLifetime: u16 := 0x000d
  const AttrBandwidth: u16 := 0x0010
  const AttrXorPeerAddress: u16 := 0x0012
  const AttrData: u16 := 0x0013
  const AttrXorRelayedAddress: u16 := 0x0016
  const AttrEvenPort: u16 := 0x0018
  const AttrRequestedTransport: u16 := 0x0019
  const AttrDontFragment: u16 := 0x001a
  const AttrTimerVal: u16 := 0x0021
  const AttrReservationToken: u16 := 0x0022

  const TurnAttrNames: map<u16, string> := map[
    AttrChannelNumber := "CHANNEL-NUMBER",
    AttrLifetime := "LIFETIME",
    AttrBandwidth := "BANDWIDTH",
    AttrXorPeerAddress := "XOR-PEER-ADDRESS",
    AttrData := "DATA",
    AttrXorRelayedAddress := "XOR-RELAYED-ADDRESS",
    AttrEvenPort := "EVEN-PORT",
    AttrRequestedTransport := "REQUESTED-TRANSPORT",
    AttrDontFragment := "DONT-FRAGMENT",
    AttrTimerVal := "TIMER-VAL",
    AttrReservationToken := "RESERVATION-TOKEN"
  ]

  const ErrorForbidden: u16 := 403
  const ErrorAllocationMismatch: u16 := 437
  const ErrorWrongCredentials: u16 := 441
  const ErrorUnsupportedTransportProtocol: u16 := 442
  const ErrorAllocationQuotaReached: u16 := 486
  const ErrorInsufficientCapacity: u16 := 508

  const TurnErrorNames: map<u16, string> := map[
    ErrorForbidden := "Forbidden",
    ErrorAllocationMismatch := "Allocation Mismatch",
    ErrorWrongCredentials := "Wrong Credentials",
    ErrorUnsupportedTransportProtocol := "Unsupported Transport Protocol",
    ErrorAllocationQuotaReached := "Allocation Quota Reached",
    ErrorInsufficientCapacity := "Insufficient Capacity"
  ]

  /** AllocateProtocol: the REQUESTED-ADDRESS-FAMILY value; 0 means "do not send". */
  const AllocateProtocolIgnore: byte := 0x00
  const AllocateProtocolIPv4: byte := 0x01
  const AllocateProtocolIPv6: byte := 0x02

  const AllocateProtocolNames: map<byte, string> := map[
    AllocateProtocolIgnore := "None",
    AllocateProtocolIPv4 := "IPv4",
    AllocateProtocolIPv6 := "IPv6"
  ]

  /** Every TURN method fits in the four low method bits, so it survives the type codec. */
  lemma TurnMethodsAreSmall()
    ensures forall m :: m in TurnMsgTypeMethodNames ==> m <= 0x0f
  {
  }

  /** The TURN attribute table names exactly the eleven codes 0x000c through 0x0022. */
  lemma TurnAttrTable()
    ensures TurnAttrNames.Keys == {0x0c, 0x0d, 0x10, 0x12, 0x13, 0x16, 0x18, 0x19, 0x1a, 0x21, 0x22}
    ensures forall a :: a in TurnAttrNames ==> 0x000c <= a <= 0x0022
  {
  }
}
