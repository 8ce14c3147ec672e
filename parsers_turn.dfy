/** internal/parsers_turn.go: reading a ChannelData message (section 11.4 of RFC 5766). */
module ParsersTurn {
  import opened Results
  import opened Bytes

  datatype ChannelDataError =
    | InvalidBufLen(length: nat)
    | LengthMismatch(reported: u16, sent: nat)

  /**
   * ExtractChannelData: the channel number is bytes 0-1 and the data is
   * everything from byte 4, whose count must be exactly the length in
   * bytes 2-3; padding after the data is not tolerated.
   */
  function ExtractChannelData(buf: seq<byte>): (r: Result<(seq<byte>, seq<byte>), ChannelDataError>)
    ensures |buf| < 4 ==> r == Err(InvalidBufLen(|buf|))
    ensures r.Ok? <==> |buf| >= 4 && ReadU16(buf[2..4]) == |buf| - 4
    ensures r.Ok? ==> |r.value.0| == 2 && r.value.0 + buf[2..4] + r.value.1 == buf
  {
    if |buf| < 4 then Err(InvalidBufLen(|buf|))
    else
      var channelNumber := buf[..2];
      var dataLength := ReadU16(buf[2..4]);
      var data := buf[4..];
      if dataLength != |data| then Err(LengthMismatch(dataLength, |data|))
      else
        assert buf == channelNumber + buf[2..4] + data;
        Ok((channelNumber, data))
  }
}
