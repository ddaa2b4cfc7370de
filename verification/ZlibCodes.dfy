/** The code tables of `stbi_zlib_compress`, the bits it writes for each
    token, and why a DEFLATE reader gets the tokens back. */
module ZlibCodes {
  import opened Bits
  import opened Deflate

  // First length of each length code, the code's extra bits, and a sentinel
  const LENGTHC: seq<nat> :=
    [3, 4, 5, 6, 7, 8, 9, 10, 11, 13, 15, 17, 19, 23, 27, 31, 35, 43, 51, 59, 67, 83, 99, 115, 131, 163, 195, 227, 258, 259]

  const LENGTHEB: seq<nat> :=
    [0, 0, 0, 0, 0, 0, 0, 0, 1, 1, 1, 1, 2, 2, 2, 2, 3, 3, 3, 3, 4, 4, 4, 4, 5, 5, 5, 5, 0]

  // The same for distances
  const DISTC: seq<nat> :=
    [1, 2, 3, 4, 5, 7, 9, 13, 17, 25, 33, 49, 65, 97, 129, 193, 257, 385, 513, 769, 1025, 1537, 2049, 3073, 4097, 6145,
     8193, 12289, 16385, 24577, 32768]

  const DISTEB: seq<nat> :=
    [0, 0, 0, 0, 1, 1, 2, 2, 3, 3, 4, 4, 5, 5, 6, 6, 7, 7, 8, 8, 9, 9, 10, 10, 11, 11, 12, 12, 13, 13]

  // The first j' >= j whose successor's start lies above v
  function Slot(starts: seq<nat>, v: nat, j: nat): (r: nat)
    requires j + 1 < |starts| && starts[j] <= v < starts[|starts| - 1]
    ensures j <= r && r + 1 < |starts|
    ensures starts[r] <= v < starts[r + 1]
    decreases |starts| - j
  {
    if v < starts[j + 1] then j else Slot(starts, v, j + 1)
  }

  predicate IsMatch(len: nat, dist: nat) {
    3 <= len <= 258 && 1 <= dist <= 32767
  }

  // The writer's tables are those of section 3.2.5 of RFC 1951, and every
  // value of a slot fits in the slot's extra bits.
  lemma LengthTable(j: nat)
    requires j < 29
    ensures |LENGTHC| == 30 && |LENGTHEB| == 29
    ensures LENGTHC[j] == LengthBase(257 + j) && LENGTHEB[j] == LengthExtra(257 + j) <= 5
    ensures LENGTHC[j + 1] - LENGTHC[j] <= Pow2(LENGTHEB[j])
  {
    Pow2Values();
  }

  lemma DistTable(j: nat)
    requires j < 30
    ensures |DISTC| == 31 && |DISTEB| == 30
    ensures DISTC[j] == DistBase(j) && DISTEB[j] == DistExtra(j) <= 13
    ensures DISTC[j + 1] - DISTC[j] <= Pow2(DISTEB[j])
  {
    DistTableExtra(j);
    DistTableGap(j);
    DistTableBase(j);
  }

  lemma DistTableExtra(j: nat)
    requires j < 30
    ensures DISTEB[j] == DistExtra(j) <= 13
  {
  }

  lemma DistTableGap(j: nat)
    requires j < 30
    ensures DISTC[j + 1] - DISTC[j] <= Pow2(DISTEB[j])
  {
    Pow2Values();
  }

  lemma DistTableBase(j: nat)
    requires j < 30
    ensures DISTC[j] == DistBase(j)
  {
    Pow2Values();
    DistTableExtra(j);
    var e := DISTEB[j];
    assert j >= 4 && j % 2 == 0 ==> DISTC[j] == 1 + 2 * Pow2(e);
    assert j >= 4 && j % 2 == 1 ==> DISTC[j] == 1 + 3 * Pow2(e);
  }

  // The slot a length or distance is coded in
  function LengthSlot(len: nat): (j: nat)
    requires 3 <= len <= 258
    ensures j < 29 && |LENGTHC| == 30 && j == Slot(LENGTHC, len, 0)
    ensures LengthBase(257 + j) <= len < LengthBase(257 + j) + Pow2(LengthExtra(257 + j))
  {
    var j := Slot(LENGTHC, len, 0);
    LengthTable(j);
    j
  }

  function DistSlot(dist: nat): (j: nat)
    requires 1 <= dist <= 32767
    ensures j < 30 && |DISTC| == 31 && j == Slot(DISTC, dist, 0)
    ensures DistBase(j) <= dist < DistBase(j) + Pow2(DistExtra(j))
  {
    var j := Slot(DISTC, dist, 0);
    DistTable(j);
    j
  }

  function LengthBits(len: nat): seq<bit>
    requires 3 <= len <= 258
  {
    var j := LengthSlot(len);
    FixedCodeBits(257 + j) + LsbBits(len - LengthBase(257 + j), LengthExtra(257 + j))
  }

  function DistBits(dist: nat): seq<bit>
    requires 1 <= dist <= 32767
  {
    var j := DistSlot(dist);
    MsbBits(j, 5) + LsbBits(dist - DistBase(j), DistExtra(j))
  }

  lemma LengthBitsParts(len: nat, j: nat)
    requires 3 <= len <= 258 && j == LengthSlot(len)
    ensures LengthBits(len) == FixedCodeBits(257 + j) + LsbBits(len - LengthBase(257 + j), LengthExtra(257 + j))
  {
    hide LengthSlot, LengthBase, LengthExtra, FixedCodeBits, LsbBits;
  }

  lemma DistBitsParts(dist: nat, j: nat)
    requires 1 <= dist <= 32767 && j == DistSlot(dist)
    ensures DistBits(dist) == MsbBits(j, 5) + LsbBits(dist - DistBase(j), DistExtra(j))
  {
    hide Slot, Pow2, DistSlot, DistBase, DistExtra, MsbBits, LsbBits;
  }

  predicate IsToken(t: Token) {
    t.Copy? ==> IsMatch(t.len, t.dist)
  }

  function TokenBits(t: Token): seq<bit>
    requires IsToken(t)
  {
    match t
    case Literal(b) => FixedCodeBits(b)
    case Copy(len, dist) => LengthBits(len) + DistBits(dist)
    case EndOfBlock => FixedCodeBits(256)
  }

  lemma ReadLiteralAt(bits: seq<bit>, pos: nat, n: nat)
    requires n <= 256 && At(bits, pos, FixedCodeBits(n))
    ensures ReadToken(bits, pos)
         == Got(if n < 256 then Literal(n) else EndOfBlock, pos + |FixedCodeBits(n)|)
  {
    ReadSymbolAt(bits, pos, n);
  }

  lemma ReadLengthAt(bits: seq<bit>, pos: nat, len: nat, sym: nat)
    requires 3 <= len <= 258 && sym == 257 + LengthSlot(len) && At(bits, pos, LengthBits(len))
    ensures ReadSymbol(bits, pos, 0, 0) == Got(sym, pos + |FixedCodeBits(sym)|)
    ensures ReadLsb(bits, pos + |FixedCodeBits(sym)|, LengthExtra(sym))
         == Got(len - LengthBase(sym), pos + |LengthBits(len)|)
  {
    hide LengthSlot, LengthBase, LengthExtra, FixedCodeBits, LsbBits, At, Pow2;
    var code, value, n := FixedCodeBits(sym), len - LengthBase(sym), LengthExtra(sym);
    AtSplit(bits, pos, code, LsbBits(value, n));
    ReadSymbolAt(bits, pos, sym);
    ReadLsbAt(bits, pos + |code|, value, n);
  }

  lemma ReadDistAt(bits: seq<bit>, pos: nat, dist: nat, j: nat)
    requires 1 <= dist <= 32767 && j == DistSlot(dist) && At(bits, pos, DistBits(dist))
    ensures ReadMsb(bits, pos, 5, 0) == Got(j, pos + 5)
    ensures ReadLsb(bits, pos + 5, DistExtra(j)) == Got(dist - DistBase(j), pos + |DistBits(dist)|)
  {
    hide DistSlot, DistBase, DistExtra, MsbBits, LsbBits, At, Pow2;
    Pow2Values();
    var value, n := dist - DistBase(j), DistExtra(j);
    AtSplit(bits, pos, MsbBits(j, 5), LsbBits(value, n));
    ReadMsbAt(bits, pos, j, 5);
    ReadLsbAt(bits, pos + 5, value, n);
  }

  lemma ReadCopyAt(bits: seq<bit>, pos: nat, len: nat, dist: nat)
    requires IsMatch(len, dist) && At(bits, pos, LengthBits(len)) && At(bits, pos + |LengthBits(len)|, DistBits(dist))
    ensures ReadToken(bits, pos) == Got(Copy(len, dist), pos + |LengthBits(len)| + |DistBits(dist)|)
  {
    hide FixedCodeBits, LengthBits, DistBits, LengthSlot, DistSlot, LengthBase, LengthExtra, DistBase, DistExtra;
    hide At, ReadSymbol, ReadLsb, ReadMsb;
    ReadLengthAt(bits, pos, len, 257 + LengthSlot(len));
    ReadDistAt(bits, pos + |LengthBits(len)|, dist, DistSlot(dist));
  }

  // A reader at the bits of a token reads that token.
  lemma ReadTokenAt(bits: seq<bit>, pos: nat, t: Token)
    requires IsToken(t) && At(bits, pos, TokenBits(t))
    ensures ReadToken(bits, pos) == Got(t, pos + |TokenBits(t)|)
  {
    hide FixedCodeBits, LengthBits, DistBits, At, ReadToken;
    match t
    case Literal(b) => ReadLiteralAt(bits, pos, b);
    case EndOfBlock => ReadLiteralAt(bits, pos, 256);
    case Copy(len, dist) =>
      AtSplit(bits, pos, LengthBits(len), DistBits(dist));
      ReadCopyAt(bits, pos, len, dist);
  }

  // ------------------------------------------------------------------- streams

  ghost predicate AreTokens(ts: seq<Token>) {
    forall t | t in ts :: IsToken(t) && !t.EndOfBlock?
  }

  function TokensBits(ts: seq<Token>): seq<bit>
    requires AreTokens(ts)
  {
    if ts == [] then [] else TokensBits(ts[..|ts| - 1]) + TokenBits(ts[|ts| - 1])
  }

  // Whether the tokens, replayed byte by byte, rebuild data
  ghost predicate Replays(ts: seq<Token>, data: seq<byte>)
    decreases ts
  {
    if ts == [] then data == []
    else
      var front, t := ts[..|ts| - 1], ts[|ts| - 1];
      match t
      case Literal(b) => data != [] && data[|data| - 1] == b && Replays(front, data[..|data| - 1])
      case Copy(len, dist) =>
        && IsMatch(len, dist) && len + dist <= |data|
        && CopyBack(data[..|data| - len], dist, len) == data
        && Replays(front, data[..|data| - len])
      case EndOfBlock => false
  }

  // An inflating reader replays the tokens it meets.
  lemma {:induction false} InflateTokensAt(bits: seq<bit>, pos: nat, ts: seq<Token>, data: seq<byte>)
    requires AreTokens(ts) && Replays(ts, data) && At(bits, pos, TokensBits(ts))
    ensures InflateTokens(bits, pos, []) == InflateTokens(bits, pos + |TokensBits(ts)|, data)
    decreases |ts|
  {
    hide At, TokenBits, ReadToken, CopyBack;
    if ts == [] {
    } else {
      var front, t := ts[..|ts| - 1], ts[|ts| - 1];
      var data' := match t case Literal(_) => data[..|data| - 1] case Copy(len, _) => data[..|data| - len];
      AtSplit(bits, pos, TokensBits(front), TokenBits(t));
      InflateTokensAt(bits, pos, front, data');
      ReadTokenAt(bits, pos + |TokensBits(front)|, t);
      if t.Literal? {
        assert data' + [t.b] == data;
      }
    }
  }

  lemma TokensBitsPush(ts: seq<Token>, t: Token)
    requires AreTokens(ts) && IsToken(t) && !t.EndOfBlock?
    ensures AreTokens(ts + [t]) && TokensBits(ts + [t]) == TokensBits(ts) + TokenBits(t)
  {
    hide TokenBits;
    assert (ts + [t])[..|ts + [t]| - 1] == ts;
  }

  lemma ReplaysLiteral(ts: seq<Token>, data: seq<byte>, i: nat)
    requires i < |data| && Replays(ts, data[..i])
    ensures Replays(ts + [Literal(data[i])], data[..i + 1])
  {
    var ts' := ts + [Literal(data[i])];
    assert ts'[..|ts'| - 1] == ts;
    assert data[..i + 1][..i] == data[..i];
  }

  // A copy of bytes that recur at i extends the replay.
  lemma ReplaysCopy(ts: seq<Token>, data: seq<byte>, i: nat, p: nat, len: nat)
    requires p < i && i + len <= |data| && IsMatch(len, i - p)
    requires Replays(ts, data[..i]) && data[p..p + len] == data[i..i + len]
    ensures Replays(ts + [Copy(len, i - p)], data[..i + len])
  {
    hide CopyBack;
    var t := Copy(len, i - p);
    var ts' := ts + [t];
    assert ts'[..|ts'| - 1] == ts && ts'[|ts'| - 1] == t;
    assert data[..i + len][..i] == data[..i];
    CopyBackRecurring(data, i, p, len);
  }

  lemma {:induction false} CopyBackRecurring(data: seq<byte>, i: nat, p: nat, len: nat)
    requires p < i && i + len <= |data| && data[p..p + len] == data[i..i + len]
    ensures CopyBack(data[..i], i - p, len) == data[..i + len]
    decreases len
  {
    if len == 0 {
    } else {
      assert data[p] == data[p..p + len][0] == data[i..i + len][0] == data[i];
      assert data[..i] + [data[p]] == data[..i + 1];
      assert data[p + 1..p + len] == data[p..p + len][1..] == data[i..i + len][1..] == data[i + 1..i + len];
      CopyBackRecurring(data, i + 1, p + 1, len - 1);
    }
  }

  // ------------------------------------------------------------- stored blocks

  function StoredBlocks(data: seq<byte>, j: nat): seq<byte>
    requires j <= |data|
    decreases |data| - j
  {
    if j == |data| then []
    else
      var len := if |data| - j > 32767 then 32767 else |data| - j;
      StoredHeader(if |data| - j == len then 1 else 0, len) + data[j..j + len] + StoredBlocks(data, j + len)
  }

  lemma {:induction false} StoredBlocksSize(data: seq<byte>, j: nat)
    requires j <= |data|
    ensures |StoredBlocks(data, j)| == |data| - j + (|data| - j + 32766) / 32767 * 5
    decreases |data| - j
  {
    if j == |data| {
    } else {
      var len := if |data| - j > 32767 then 32767 else |data| - j;
      StoredBlocksSize(data, j + len);
    }
  }

  lemma {:induction false} InflateStoredBlocksAt(bits: seq<bit>, pos: nat, data: seq<byte>, j: nat)
    requires j < |data| && pos % 8 == 0 && At(bits, pos, BytesBits(StoredBlocks(data, j)))
    ensures Inflate(bits, pos, data[..j]) == Got(data, pos + 8 * |StoredBlocks(data, j)|)
    decreases |data| - j
  {
    var len := if |data| - j > 32767 then 32767 else |data| - j;
    var final := if |data| - j == len then 1 else 0;
    hide At, BytesBits, StoredHeader, Inflate;
    var block, rest := StoredHeader(final, len) + data[j..j + len], StoredBlocks(data, j + len);
    BytesBitsConcat(block, rest);
    AtSplit(bits, pos, BytesBits(block), BytesBits(rest));
    InflateStoredAt(bits, pos, final, data[j..j + len], data[..j], block);
    assert data[..j] + data[j..j + len] == data[..j + len];
    if j + len < |data| {
      InflateStoredBlocksAt(bits, pos + 8 * |block|, data, j + len);
    } else {
      assert data[..j + len] == data;
    }
  }

  // ------------------------------------------------------------ tokens of data

  // t stands for the bytes of data at i.
  ghost predicate Stands(t: Token, data: seq<byte>, i: nat) {
    match t
    case Literal(b) => i < |data| && b == data[i]
    case Copy(len, dist) =>
      IsMatch(len, dist) && dist <= i && i + len <= |data| && data[i - dist..i - dist + len] == data[i..i + len]
    case EndOfBlock => false
  }

  function Width(t: Token): nat {
    if t.Copy? then t.len else 1
  }

  // The tokens cover exactly the first i bytes of data.
  ghost predicate Covers(ts: seq<Token>, data: seq<byte>, i: nat) {
    i <= |data| && AreTokens(ts) && Replays(ts, data[..i])
  }

  lemma CoversPush(ts: seq<Token>, data: seq<byte>, i: nat, t: Token)
    requires Covers(ts, data, i) && Stands(t, data, i)
    ensures Covers(ts + [t], data, i + Width(t))
    ensures TokensBits(ts + [t]) == TokensBits(ts) + TokenBits(t)
  {
    hide TokenBits, Replays, TokensBits;
    TokensBitsPush(ts, t);
    if t.Literal? {
      ReplaysLiteral(ts, data, i);
    } else {
      ReplaysCopy(ts, data, i, i - t.dist, t.len);
    }
  }

  lemma CoversNothing(data: seq<byte>)
    ensures Covers([], data, 0) && TokensBits([]) == []
  {
  }

  // ------------------------------------------------------------- whole streams

  // Final block with the fixed code: BFINAL is 1 and BTYPE is 01.
  function FixedHeader(): seq<bit> {
    LsbBits(1, 1) + LsbBits(1, 2)
  }

  lemma FixedHeaderAt(bits: seq<bit>, pos: nat)
    requires At(bits, pos, FixedHeader())
    ensures ReadLsb(bits, pos, 3) == Got(3, pos + 3)
  {
    hide LsbBits;
    Pow2Values();
    LsbBitsAppend(1, 1, 1, 2);
    ReadLsbAt(bits, pos, 3, 3);
  }

  lemma InflateFixedAt(bits: seq<bit>, ts: seq<Token>, data: seq<byte>)
    requires Covers(ts, data, |data|)
    requires At(bits, 0, FixedHeader() + TokensBits(ts) + FixedCodeBits(256))
    ensures Inflate(bits, 0, []) == Got(data, |FixedHeader() + TokensBits(ts) + FixedCodeBits(256)|)
  {
    hide At, TokensBits, FixedHeader, FixedCodeBits, ReadLsb, ReadToken, Replays;
    var head, body, end := FixedHeader(), TokensBits(ts), FixedCodeBits(256);
    assert |head| == 3 by { HeaderSize(); }
    assert data[..|data|] == data;
    AtSplit(bits, 0, head + body, end);
    AtSplit(bits, 0, head, body);
    FixedHeaderAt(bits, 0);
    InflateTokensAt(bits, 3, ts, data);
    ReadLiteralAt(bits, 3 + |body|, 256);
  }

  lemma HeaderSize()
    ensures |FixedHeader()| == 3
  {
  }
}
