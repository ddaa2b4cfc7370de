/** Two known answers of the zlib format, which tie the definitions that writer and
    reader share to bytes written down here. */
module ZlibKnown {
  import opened Bits
  import opened Deflate
  import opened Options
  import opened Zlib
  import opened ZlibCodes
  import opened ZlibWriter

  lemma OneByteParts()
    ensures FixedHeader() == [1, 1, 0] && FixedCodeBits(0x61) == [1, 0, 0, 1, 0, 0, 0, 1]
    ensures FixedCodeBits(256) == [0, 0, 0, 0, 0, 0, 0] && LsbBits(0, 6) == [0, 0, 0, 0, 0, 0]
  {
  }

  lemma ThreeBytes()
    ensures LsbBits(0x4b, 8) == [1, 1, 0, 1, 0, 0, 1, 0]
    ensures LsbBits(0x04, 8) == [0, 0, 1, 0, 0, 0, 0, 0]
    ensures LsbBits(0x00, 8) == [0, 0, 0, 0, 0, 0, 0, 0]
  {
    hide LsbBits;
    EightBits(0x4b);
    EightBits(0x04);
    EightBits(0x00);
  }

  lemma EightBits(v: byte)
    ensures LsbBits(v, 8)
         == [v % 2, v / 2 % 2, v / 4 % 2, v / 8 % 2, v / 16 % 2, v / 32 % 2, v / 64 % 2, v / 128 % 2]
  {
    assert LsbBits(v / 128, 1) == [v / 128 % 2];
    assert LsbBits(v / 64, 2) == [v / 64 % 2, v / 128 % 2];
    assert LsbBits(v / 32, 3) == [v / 32 % 2] + LsbBits(v / 64, 2);
    assert LsbBits(v / 16, 4) == [v / 16 % 2] + LsbBits(v / 32, 3);
    assert LsbBits(v / 8, 5) == [v / 8 % 2] + LsbBits(v / 16, 4);
    assert LsbBits(v / 4, 6) == [v / 4 % 2] + LsbBits(v / 8, 5);
    assert LsbBits(v / 2, 7) == [v / 2 % 2] + LsbBits(v / 4, 6);
  }

  lemma OneByteBits()
    ensures BytesBits([0x4b, 0x04, 0x00])
         == [1, 1, 0, 1, 0, 0, 1, 0] + [0, 0, 1, 0, 0, 0, 0, 0] + [0, 0, 0, 0, 0, 0, 0, 0]
  {
    hide BytesBits, LsbBits;
    BytesBitsEmpty();
    BytesBitsPush([], 0x4b);
    BytesBitsPush([0x4b], 0x04);
    BytesBitsPush([0x4b, 0x04], 0x00);
    assert [] + [0x4b] == [0x4b] && [0x4b] + [0x04] == [0x4b, 0x04] && [0x4b, 0x04] + [0x00] == [0x4b, 0x04, 0x00];
    ThreeBytes();
  }

  lemma OneByteSum()
    ensures Adler32([0x61]) == [0, 0x62, 0, 0x62]
  {
    hide AdlerA, AdlerB;
    AdlerUnfold([0x61], 0);
    AdlerStart([0x61]);
    assert [0x61][..1] == [0x61];
  }

  lemma OneByteStream(s: seq<byte>, ts: seq<Token>)
    requires s == [0x78, 0x5e, 0x4b, 0x04, 0x00] && AreTokens(ts) && TokensBits(ts) == FixedCodeBits(0x61)
    ensures BytesBits(s[2..]) == FixedHeader() + TokensBits(ts) + FixedCodeBits(256) + LsbBits(0, 6)
  {
    hide BytesBits, LsbBits, TokensBits, FixedHeader, FixedCodeBits;
    OneByteParts();
    OneByteBits();
    assert s[2..] == [0x4b, 0x04, 0x00];
  }

  // The zlib stream of the one byte "a"
  lemma OneByteKnown()
    ensures Decode([0x78, 0x5e, 0x4b, 0x04, 0x00, 0x00, 0x62, 0x00, 0x62]) == Some([0x61])
  {
    hide Covers, Decode, Adler32, BytesBits, LsbBits, TokensBits, FixedHeader, FixedCodeBits, Replays;
    var data, ts, s := [0x61], [Literal(0x61)], [0x78, 0x5e, 0x4b, 0x04, 0x00];
    assert [] + ts == ts;
    CoversNothing(data);
    CoversPush([], data, 0, Literal(0x61));
    assert Covers(ts, data, |data|);
    CoversTokens(ts, data);
    assert [] + TokenBits(Literal(0x61)) == FixedCodeBits(0x61);
    OneByteStream(s, ts);
    FixedDecodes(s, ts, data, 6);
    OneByteSum();
    assert s + [0, 0x62, 0, 0x62] == [0x78, 0x5e, 0x4b, 0x04, 0x00, 0x00, 0x62, 0x00, 0x62];
  }

  lemma AbcSums(data: seq<byte>)
    requires |data| == 3 && data[0] == 0x61 && data[1] == 0x62 && data[2] == 0x63
    ensures AdlerA(data) == 0x127 && AdlerB(data) == 0x24d
  {
    hide AdlerA, AdlerB;
    AdlerStart(data);
    AdlerUnfold(data, 0);
    assert AdlerA(data[..1]) == 98 && AdlerB(data[..1]) == 98;
    AdlerUnfold(data, 1);
    assert AdlerA(data[..2]) == 196 && AdlerB(data[..2]) == 294;
    AdlerUnfold(data, 2);
    assert data[..3] == data;
  }

  // The Adler-32 checksum of "abc"
  lemma AdlerKnown()
    ensures Adler32([0x61, 0x62, 0x63]) == [0x02, 0x4d, 0x01, 0x27]
  {
    hide AdlerA, AdlerB;
    AbcSums([0x61, 0x62, 0x63]);
  }
}
