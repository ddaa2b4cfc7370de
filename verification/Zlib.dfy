/** The zlib wrapper of RFC 1950: Adler-32 and a reference decoder. */
module Zlib {
  import opened Bits
  import opened Deflate
  import opened Options

  const ADLER_BASE: nat := 65521

  // Section 2.2 of RFC 1950, byte by byte
  function AdlerA(s: seq<byte>): (r: nat)
    ensures r < ADLER_BASE
  {
    if s == [] then 1 else (AdlerA(s[..|s| - 1]) + s[|s| - 1]) % ADLER_BASE
  }

  function AdlerB(s: seq<byte>): (r: nat)
    ensures r < ADLER_BASE
  {
    if s == [] then 0 else (AdlerB(s[..|s| - 1]) + AdlerA(s)) % ADLER_BASE
  }

  function BigEndian16(v: nat): seq<byte>
    requires v < 65536
  {
    [v / 256, v % 256]
  }

  // The checksum as the four bytes of the trailer
  function Adler32(s: seq<byte>): (r: seq<byte>)
    ensures |r| == 4
  {
    BigEndian16(AdlerB(s)) + BigEndian16(AdlerA(s))
  }

  // CM is 8, the window at most 32K, FCHECK right and no preset dictionary
  predicate HeaderOk(cmf: byte, flg: byte) {
    cmf % 16 == 8 && cmf / 16 <= 7 && (256 * cmf + flg) % 31 == 0 && flg / 32 % 2 == 0
  }

  function Decode(s: seq<byte>): Option<seq<byte>> {
    if |s| < 2 || !HeaderOk(s[0], s[1]) then None
    else
      var body := s[2..];
      match Inflate(BytesBits(body), 0, [])
      case Fail => None
      case Got(data, pos) =>
        var n := NextByte(pos) / 8;
        if |body| == n + 4 && body[n..] == Adler32(data) then Some(data) else None
  }

  // A stream is decoded by its body, up to fewer than 8 bits of padding.
  lemma DecodeStream(s: seq<byte>, body: seq<byte>, data: seq<byte>, pos: nat)
    requires s == [0x78, 0x5e] + (body + Adler32(data))
    requires Inflate(BytesBits(body + Adler32(data)), 0, []) == Got(data, pos)
    requires 8 * |body| - 8 < pos <= 8 * |body|
    ensures Decode(s) == Some(data)
  {
    hide Inflate, Adler32, BytesBits, NextByte, HeaderOk;
    var t := Adler32(data);
    WriterHeader();
    NextByteOf(pos, |body|);
    assert s[0] == 0x78 && s[1] == 0x5e;
    assert s[2..] == body + t;
    assert (body + t)[|body|..] == t;
  }

  lemma WriterHeader()
    ensures HeaderOk(0x78, 0x5e)
  {
  }
}
