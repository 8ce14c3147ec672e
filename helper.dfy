/**
 * internal/helper/helper.go: big-endian integer encoding, random letter
 * strings and random TURN channel numbers. Randomness is an input: the
 * sequence of values the random source would have produced.
 */
module Helper {
  import opened Results
  import opened Bytes

  /** binary.BigEndian.PutUint16 into a fresh 2-byte buffer. */
  function PutUint16(v: u16): (r: seq<byte>)
    ensures |r| == 2 && ReadU16(r) == v
  {
    [v / 0x100, v % 0x100]
  }

  /** binary.BigEndian.PutUint32 into a fresh 4-byte buffer. */
  function PutUint32(v: u32): (r: seq<byte>)
    ensures |r| == 4 && ReadU32(r) == v
  {
    var q1 := v / 0x100;
    var q2 := q1 / 0x100;
    var q3 := q2 / 0x100;
    assert v == q1 * 0x100 + v % 0x100;
    assert q1 == q2 * 0x100 + q1 % 0x100;
    assert q2 == q3 * 0x100 + q2 % 0x100;
    [q3, q2 % 0x100, q1 % 0x100, v % 0x100]
  }

  /** Reading two bytes back and writing them again changes nothing. */
  lemma PutReadU16(b: seq<byte>)
    requires |b| == 2
    ensures PutUint16(ReadU16(b)) == b
  {
  }

  /** Reading four bytes back and writing them again changes nothing. */
  lemma PutReadU32(b: seq<byte>)
    requires |b| == 4
    ensures PutUint32(ReadU32(b)) == b
  {
    var v := ReadU32(b);
    var q1 := v / 0x100;
    var q2 := q1 / 0x100;
    assert v % 0x100 == b[3] && q1 == (b[0] as int * 0x100 + b[1]) * 0x100 + b[2];
    assert q1 % 0x100 == b[2] && q2 == b[0] as int * 0x100 + b[1];
  }

  /** The alphabet of RandomString: a-z then A-Z. */
  const Letters: string :=
    seq(52, i requires 0 <= i < 52 => if i < 26 then ('a' as int + i) as char else ('A' as int + i - 26) as char)

  predicate IsAsciiLetter(c: char)
  {
    ('a' <= c <= 'z') || ('A' <= c <= 'Z')
  }

  lemma LettersAreLetters()
    ensures |Letters| == 52
    ensures forall i :: 0 <= i < 52 ==> IsAsciiLetter(Letters[i])
    ensures Letters[0] == 'a' && Letters[25] == 'z' && Letters[26] == 'A' && Letters[51] == 'Z'
  {
  }

  /**
   * RandomString: `picks[i]` is the value rand.IntN(52) returned on the
   * i-th iteration; the string is filled position by position.
   */
  method RandomString(length: nat, picks: seq<nat>) returns (s: string)
    requires |picks| == length
    requires forall i :: 0 <= i < length ==> picks[i] < 52
    ensures |s| == length
    ensures forall i :: 0 <= i < length ==> s[i] == Letters[picks[i]]
    ensures forall i :: 0 <= i < length ==> IsAsciiLetter(s[i])
  {
    LettersAreLetters();
    var b := new char[length];
    for i := 0 to length
      invariant forall k :: 0 <= k < i ==> b[k] == Letters[picks[k]]
    {
      b[i] := Letters[picks[i]];
    }
    s := b[..];
  }

  /** One read of two bytes from crypto/rand: either the bytes or an error. */
  datatype Draw = Read(token: seq<byte>) | ReadFailed(err: string)

  /** The channel-number range of section 11 of RFC 5766: 0x4000 through 0x7FFF. */
  predicate InChannelRange(token: seq<byte>)
  {
    |token| == 2 && 0x40 <= token[0] <= 0x7f
  }

  /** A draw that ends the retry loop: a failed read or an in-range token. */
  predicate Stops(d: Draw)
  {
    d.ReadFailed? || InChannelRange(d.token)
  }

  /** What RandomChannelNumber returns for a given stream of draws. */
  function ChannelNumberOf(draws: seq<Draw>): (r: Result<seq<byte>, string>)
    requires forall d :: d in draws ==> d.Read? ==> |d.token| == 2
    requires exists i :: 0 <= i < |draws| && Stops(draws[i])
    ensures r.Ok? ==> InChannelRange(r.value) && 0x4000 <= ReadU16(r.value) <= 0x7fff
  {
    match draws[0]
    case ReadFailed(e) => Err(e)
    case Read(t) =>
      if InChannelRange(t) then Ok(t)
      else
        var i :| 0 <= i < |draws| && Stops(draws[i]);
        assert draws[1..][i - 1] == draws[i];
        ChannelNumberOf(draws[1..])
  }

  /** The first stopping draw decides the result of ChannelNumberOf. */
  lemma {:induction false} ChannelNumberFirstStop(draws: seq<Draw>, j: nat)
    requires forall d :: d in draws ==> d.Read? ==> |d.token| == 2
    requires j < |draws| && Stops(draws[j])
    requires forall k :: 0 <= k < j ==> !Stops(draws[k])
    ensures ChannelNumberOf(draws) == if draws[j].ReadFailed? then Err(draws[j].err) else Ok(draws[j].token)
  {
    if j > 0 {
      assert draws[1..][j - 1] == draws[j];
      ChannelNumberFirstStop(draws[1..], j - 1);
    }
  }

  /**
   * RandomChannelNumber: read two bytes until the first is in 0x40..0x7F;
   * a failed read is returned as the error.
   */
  method RandomChannelNumber(draws: seq<Draw>) returns (r: Result<seq<byte>, string>)
    requires forall d :: d in draws ==> d.Read? ==> |d.token| == 2
    requires exists i :: 0 <= i < |draws| && Stops(draws[i])
    ensures r == ChannelNumberOf(draws)
  {
    var n := 0;
    while true
      invariant n < |draws|
      invariant forall k :: 0 <= k < n ==> !Stops(draws[k])
      decreases |draws| - n
    {
      match draws[n]
      case ReadFailed(e) =>
        ChannelNumberFirstStop(draws, n);
        return Err(e);
      case Read(t) =>
        if InChannelRange(t) {
          ChannelNumberFirstStop(draws, n);
          return Ok(t);
        }
      n := n + 1;
    }
  }
}
