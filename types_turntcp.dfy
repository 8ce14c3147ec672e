/**
 * internal/types_turntcp.go: the TURN-TCP methods, attribute and error
 * codes of section 6 of RFC 6062 and their name tables.
 */
module TypesTurnTcp {
  import opened Bytes

  const MsgTypeMethodConnect: u16 := 0x0a
  const MsgTypeMethodConnectionBind: u16 := 0x0b
  const MsgTypeMethodConnectionAttempt: u16 := 0x0c

  const TurnTcpMsgTypeMethodNames: map<u16, string> := map[
    MsgTypeMethodConnect := "Connect",
    MsgTypeMethodConnectionBind := "ConnectionBind",
    MsgTypeMethodConnectionAttempt := "ConnectionAttempt"
  ]

  const AttrConnectionId: u16 := 0x002a

  const TurnTcpAttrNames: map<u16, string> := map[AttrConnectionId := "CONNECTION-ID"]

  const ErrorConnectionAlreadyExists: u16 := 446
  const ErrorConnectionTimeoutOrFailure: u16 := 447

  const TurnTcpErrorNames: map<u16, string> := map[
    ErrorConnectionAlreadyExists := "Connection Already Exists",
    ErrorConnectionTimeoutOrFailure := "Connection Timeout or Failure"
  ]
}
