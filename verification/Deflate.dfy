/** The DEFLATE format of RFC 1951: a reference decoder for stored and
    fixed-Huffman blocks, and the symbol stream a fixed-Huffman block carries. */
module Deflate {
  import opened Bits

  // ---------------------------------------------------------------- bit input

  // n bits, least significant first (section 3.1.1)
  function ReadLsb(bits: seq<bit>, pos: nat, n: nat): (r: Read<nat>)
    ensures r.Got? ==> r.pos == pos + n <= |bits|
  {
    if pos + n > |bits| then Fail else Got(LsbValue(bits[pos..pos + n]), pos + n)
  }

  lemma ReadLsbAt(bits: seq<bit>, pos: nat, v: nat, n: nat)
    requires v < Pow2(n) && At(bits, pos, LsbBits(v, n))
    ensures ReadLsb(bits, pos, n) == Got(v, pos + n)
  {
    LsbValueOfBits(v, n);
  }

  // ------------------------------------------------- fixed Huffman code (3.2.6)

  // The symbol with the given code, by the table of section 3.2.6; -1 if none
  function FixedSymbol(len: nat, code: nat): int {
    if len == 7 && code < 24 then 256 + code
    else if len == 8 && 48 <= code < 192 then code - 48
    else if len == 8 && 192 <= code < 200 then 280 + code - 192
    else if len == 9 && 400 <= code < 512 then 144 + code - 400
    else -1
  }

  // Reads bits until they form a code.
  function ReadSymbol(bits: seq<bit>, pos: nat, len: nat, code: nat): (r: Read<nat>)
    requires len <= 9
    ensures r.Got? ==> pos <= r.pos <= |bits| && r.pos <= pos + 9 - len
    ensures r.Got? && len == 0 ==> r.pos > pos
    decreases 9 - len
  {
    if FixedSymbol(len, code) >= 0 && pos <= |bits| then Got(FixedSymbol(len, code), pos)
    else if len == 9 || pos >= |bits| then Fail
    else ReadSymbol(bits, pos + 1, len + 1, 2 * code + bits[pos])
  }

  // Code and code length of each literal/length symbol
  function FixedCode(n: nat): (nat, nat) {
    if n <= 143 then (0x30 + n, 8)
    else if n <= 255 then (0x190 + n - 144, 9)
    else if n <= 279 then (n - 256, 7)
    else (0xc0 + n - 280, 8)
  }

  function FixedCodeBits(n: nat): seq<bit> {
    MsbBits(FixedCode(n).0, FixedCode(n).1)
  }

  // No proper prefix of the code is itself a code.
  ghost predicate PrefixFree(code: nat, len: nat) {
    forall j: nat | j < len :: NoSymbol(code, len, j)
  }

  ghost predicate NoSymbol(code: nat, len: nat, j: nat)
    requires j <= len
  {
    FixedSymbol(j, Shr(code, len - j)) < 0
  }

  // Reading on after k bits of the code
  lemma {:induction false} ReadSymbolFrom(bits: seq<bit>, pos: nat, code: nat, len: nat, k: nat)
    requires k <= len <= 9 && At(bits, pos, MsbBits(code, len))
    requires FixedSymbol(len, code) >= 0 && PrefixFree(code, len)
    ensures ReadSymbol(bits, pos + k, k, Shr(code, len - k)) == Got(FixedSymbol(len, code), pos + len)
    decreases len - k
  {
    hide ReadSymbol, FixedSymbol, MsbBits, Shr;
    if k == len {
      ReadSymbolDone(bits, pos + len, len, code);
    } else {
      ReadSymbolFrom(bits, pos, code, len, k + 1);
      MsbBitAt(bits, pos, code, len, k);
      assert NoSymbol(code, len, k);
      ReadSymbolStep(bits, pos + k, k, Shr(code, len - k), Shr(code, len - 1 - k));
    }
  }

  lemma ReadSymbolDone(bits: seq<bit>, pos: nat, len: nat, code: nat)
    requires len <= 9 && pos <= |bits| && FixedSymbol(len, code) >= 0
    ensures Shr(code, 0) == code && ReadSymbol(bits, pos, len, code) == Got(FixedSymbol(len, code), pos)
  {
  }

  lemma ReadSymbolStep(bits: seq<bit>, pos: nat, len: nat, code: nat, code': nat)
    requires len < 9 && pos < |bits| && FixedSymbol(len, code) < 0 && code' == 2 * code + bits[pos]
    ensures ReadSymbol(bits, pos, len, code) == ReadSymbol(bits, pos + 1, len + 1, code')
  {
  }

  // No proper prefix of a code is a code.
  lemma NoShorterCode(n: nat, k: nat)
    requires n <= 287 && k < FixedCode(n).1
    ensures NoSymbol(FixedCode(n).0, FixedCode(n).1, k)
  {
    var (code, len) := FixedCode(n);
    if k >= 7 {
      assert Shr(code, 1) == code / 2;
      assert Shr(code, 2) == Shr(code / 2, 1) == code / 2 / 2;
      assert len - k == 1 || len - k == 2;
    }
  }

  lemma FixedCodeFits(n: nat)
    requires n <= 287
    ensures FixedCode(n).1 <= 9 && FixedCode(n).0 < Pow2(FixedCode(n).1)
    ensures FixedSymbol(FixedCode(n).1, FixedCode(n).0) == n
    ensures PrefixFree(FixedCode(n).0, FixedCode(n).1)
  {
    Pow2Values();
    var (code, len) := FixedCode(n);
    forall j: nat | j < len ensures NoSymbol(code, len, j) {
      NoShorterCode(n, j);
    }
  }

  lemma ReadSymbolAt(bits: seq<bit>, pos: nat, n: nat)
    requires n <= 287 && At(bits, pos, FixedCodeBits(n))
    ensures ReadSymbol(bits, pos, 0, 0) == Got(n, pos + |FixedCodeBits(n)|)
  {
    var (code, len) := FixedCode(n);
    FixedCodeFits(n);
    ShrZero(code, len);
    ReadSymbolFrom(bits, pos, code, len, 0);
  }

  // ---------------------------------------------- lengths and distances (3.2.5)

  // Base and extra bits of length symbols 257..285, computed as the table of
  // section 3.2.5 is laid out: groups of four doubling ranges, and 285 for 258
  function LengthExtra(sym: nat): nat
    requires 257 <= sym <= 285
  {
    if sym < 265 || sym == 285 then 0 else (sym - 261) / 4
  }

  function LengthBase(sym: nat): nat
    requires 257 <= sym <= 285
  {
    if sym < 265 then sym - 254
    else if sym == 285 then 258
    else 3 + (4 + (sym - 261) % 4) * Pow2(LengthExtra(sym))
  }

  function DistExtra(code: nat): nat
    requires code < 30
  {
    if code < 4 then 0 else code / 2 - 1
  }

  function DistBase(code: nat): nat
    requires code < 30
  {
    if code < 4 then code + 1
    else if code % 2 == 0 then 1 + 2 * Pow2(DistExtra(code))
    else 1 + 3 * Pow2(DistExtra(code))
  }

  // One element of a compressed block
  datatype Token = Literal(b: byte) | Copy(len: nat, dist: nat) | EndOfBlock

  function ReadToken(bits: seq<bit>, pos: nat): (r: Read<Token>)
    ensures r.Got? ==> pos < r.pos <= |bits|
  {
    match ReadSymbol(bits, pos, 0, 0)
    case Fail => Fail
    case Got(sym, p) =>
      if sym < 256 then Got(Literal(sym), p)
      else if sym == 256 then Got(EndOfBlock, p)
      else if sym > 285 then Fail
      else
        match ReadLsb(bits, p, LengthExtra(sym))
        case Fail => Fail
        case Got(le, p1) =>
          match ReadMsb(bits, p1, 5, 0)
          case Fail => Fail
          case Got(dc, p2) =>
            if dc >= 30 then Fail
            else
              match ReadLsb(bits, p2, DistExtra(dc))
              case Fail => Fail
              case Got(de, p3) => Got(Copy(LengthBase(sym) + le, DistBase(dc) + de), p3)
  }

  // --------------------------------------------------------------- block bodies

  // Copies len bytes from dist bytes back, one at a time, so that source and
  // target may overlap (section 3.2.3)
  function CopyBack(out: seq<byte>, dist: nat, len: nat): (r: seq<byte>)
    requires 1 <= dist <= |out|
    ensures |r| == |out| + len
    decreases len
  {
    if len == 0 then out else CopyBack(out + [out[|out| - dist]], dist, len - 1)
  }

  function InflateTokens(bits: seq<bit>, pos: nat, out: seq<byte>): (r: Read<seq<byte>>)
    ensures r.Got? ==> pos < r.pos <= |bits|
    decreases |bits| - pos
  {
    match ReadToken(bits, pos)
    case Fail => Fail
    case Got(Literal(b), p) => InflateTokens(bits, p, out + [b])
    case Got(Copy(len, dist), p) =>
      if dist == 0 || dist > |out| then Fail else InflateTokens(bits, p, CopyBack(out, dist, len))
    case Got(EndOfBlock, p) => Got(out, p)
  }

  // n bytes from a byte boundary
  function ReadBytes(bits: seq<bit>, pos: nat, n: nat): (r: Read<seq<byte>>)
    ensures r.Got? ==> r.pos == pos + 8 * n && |r.value| == n
    ensures r.Got? && n > 0 ==> r.pos <= |bits|
    decreases n
  {
    if n == 0 then Got([], pos)
    else if pos + 8 > |bits| then Fail
    else
      match ReadBytes(bits, pos + 8, n - 1)
      case Fail => Fail
      case Got(rest, p) => Pow2Values(); Got([LsbValue(bits[pos..pos + 8])] + rest, p)
  }

  function NextByte(pos: nat): (p: nat)
    ensures pos <= p < pos + 8 && p % 8 == 0
  {
    (pos + 7) / 8 * 8
  }

  // Section 3.2.4
  function InflateStored(bits: seq<bit>, pos: nat, out: seq<byte>): (r: Read<seq<byte>>)
    ensures r.Got? ==> pos <= r.pos <= |bits|
  {
    var p := NextByte(pos);
    match ReadLsb(bits, p, 16)
    case Fail => Fail
    case Got(len, p1) =>
      match ReadLsb(bits, p1, 16)
      case Fail => Fail
      case Got(nlen, p2) =>
        if len + nlen != 0xffff then Fail
        else
          match ReadBytes(bits, p2, len)
          case Fail => Fail
          case Got(s, p3) => Got(out + s, p3)
  }

  // Section 3.2.3.  Blocks with dynamic codes are not read.
  function Inflate(bits: seq<bit>, pos: nat, out: seq<byte>): (r: Read<seq<byte>>)
    decreases |bits| - pos
  {
    match ReadLsb(bits, pos, 3)
    case Fail => Fail
    case Got(header, p) =>
      var final, kind := header % 2, header / 2;
      var body := if kind == 0 then InflateStored(bits, p, out)
                  else if kind == 1 then InflateTokens(bits, p, out)
                  else Fail;
      match body
      case Fail => Fail
      case Got(out', p') => if final == 1 then body else Inflate(bits, p', out')
  }

  // ---------------------------------------------------------------- block steps

  lemma {:induction false} ReadBytesAt(bits: seq<bit>, pos: nat, s: seq<byte>)
    requires At(bits, pos, BytesBits(s))
    ensures ReadBytes(bits, pos, |s|) == Got(s, pos + 8 * |s|)
    decreases |s|
  {
    if s == [] {
    } else {
      assert s == [s[0]] + s[1..];
      BytesBitsConcat([s[0]], s[1..]);
      BytesBitsPush([], s[0]);
      assert BytesBits([s[0]]) == LsbBits(s[0], 8);
      AtSplit(bits, pos, LsbBits(s[0], 8), BytesBits(s[1..]));
      ReadBytesAt(bits, pos + 8, s[1..]);
      Pow2Values();
      LsbValueOfBits(s[0], 8);
    }
  }

  // The five bytes that head a stored block
  function StoredHeader(final: bit, len: nat): seq<byte>
    requires len < 65536
  {
    [final, len % 256, len / 256, 255 - len % 256, 255 - len / 256]
  }

  lemma TwoBytesBits(lo: byte, hi: byte)
    ensures BytesBits([lo, hi]) == LsbBits(lo + 256 * hi, 16)
  {
    hide LsbBits;
    BytesBitsPush([], lo);
    BytesBitsPush([lo], hi);
    assert [] + [lo] == [lo] && [lo] + [hi] == [lo, hi];
    Pow2Values();
    LsbBitsAppend(lo, hi, 8, 8);
  }

  lemma StoredHeaderBits(final: bit, len: nat)
    requires len < 65536
    ensures BytesBits(StoredHeader(final, len))
         == LsbBits(final, 3) + LsbBits(0, 5) + (LsbBits(len, 16) + LsbBits(65535 - len, 16))
  {
    hide LsbBits, BytesBits, Pow2;
    Pow2Values();
    var lo, hi := len % 256, len / 256;
    var a, b, c := [final], [lo, hi], [255 - lo, 255 - hi];
    assert StoredHeader(final, len) == a + (b + c);
    BytesBitsConcat(a, b + c);
    BytesBitsConcat(b, c);
    TwoBytesBits(lo, hi);
    TwoBytesBits(255 - lo, 255 - hi);
    assert 255 - lo + 256 * (255 - hi) == 65535 - len;
    assert BytesBits(a) == LsbBits(final, 8) by {
      BytesBitsPush([], final);
      assert [] + [final] == a;
      BytesBitsEmpty();
    }
    LsbBitsAppend(final, 0, 3, 5);
  }

  lemma BytesBitsEmpty()
    ensures BytesBits([]) == []
  {
  }

  lemma StoredFieldsAt(bits: seq<bit>, pos: nat, final: bit, s: seq<byte>)
    requires |s| < 65536 && At(bits, pos, BytesBits(StoredHeader(final, |s|) + s))
    ensures At(bits, pos, LsbBits(final, 3))
    ensures At(bits, pos + 8, LsbBits(|s|, 16))
    ensures At(bits, pos + 24, LsbBits(65535 - |s|, 16))
    ensures At(bits, pos + 40, BytesBits(s))
  {
    hide LsbBits, BytesBits, At, StoredHeader;
    BytesBitsConcat(StoredHeader(final, |s|), s);
    StoredHeaderBits(final, |s|);
    var kind, pad, len, nlen := LsbBits(final, 3), LsbBits(0, 5), LsbBits(|s|, 16), LsbBits(65535 - |s|, 16);
    AtSplit(bits, pos, kind + pad + (len + nlen), BytesBits(s));
    AtSplit(bits, pos, kind + pad, len + nlen);
    AtSplit(bits, pos, kind, pad);
    AtSplit(bits, pos + 8, len, nlen);
  }

  lemma NextByteOf(pos: nat, n: nat)
    requires 8 * n - 8 < pos <= 8 * n
    ensures NextByte(pos) == 8 * n
  {
  }

  // A stored block at a byte boundary is read whole, and reading goes on behind it
  // unless it is the final one.
  lemma InflateStoredAt(bits: seq<bit>, pos: nat, final: bit, s: seq<byte>, out: seq<byte>, block: seq<byte>)
    requires pos % 8 == 0 && |s| < 65536
    requires block == StoredHeader(final, |s|) + s && At(bits, pos, BytesBits(block))
    ensures var end := pos + 8 * |block|;
            Inflate(bits, pos, out) == if final == 1 then Got(out + s, end) else Inflate(bits, end, out + s)
  {
    hide At, BytesBits, StoredHeader, Inflate, InflateStored, ReadLsb;
    ReadStoredAt(bits, pos, final, s, out, block);
    InflateStep(bits, pos, final, out);
  }

  lemma ReadStoredAt(bits: seq<bit>, pos: nat, final: bit, s: seq<byte>, out: seq<byte>, block: seq<byte>)
    requires pos % 8 == 0 && |s| < 65536
    requires block == StoredHeader(final, |s|) + s && At(bits, pos, BytesBits(block))
    ensures ReadLsb(bits, pos, 3) == Got(final, pos + 3)
    ensures InflateStored(bits, pos + 3, out) == Got(out + s, pos + 8 * |block|)
  {
    assert |block| == 5 + |s|;
    hide At, BytesBits, StoredHeader, InflateStored, ReadLsb;
    StoredFieldsAt(bits, pos, final, s);
    NextByteOf(pos + 3, pos / 8 + 1);
    InflateFieldsAt(bits, pos, final, s, out);
  }

  lemma InflateStep(bits: seq<bit>, pos: nat, final: bit, out: seq<byte>)
    requires ReadLsb(bits, pos, 3) == Got(final, pos + 3)
    requires InflateStored(bits, pos + 3, out).Got?
    ensures var r := InflateStored(bits, pos + 3, out);
            r.pos > pos && Inflate(bits, pos, out) == if final == 1 then r else Inflate(bits, r.pos, r.value)
  {
    hide ReadLsb, InflateStored;
  }

  lemma InflateFieldsAt(bits: seq<bit>, pos: nat, final: bit, s: seq<byte>, out: seq<byte>)
    requires NextByte(pos + 3) == pos + 8 && |s| < 65536
    requires At(bits, pos, LsbBits(final, 3))
    requires At(bits, pos + 8, LsbBits(|s|, 16))
    requires At(bits, pos + 24, LsbBits(65535 - |s|, 16))
    requires At(bits, pos + 40, BytesBits(s))
    ensures ReadLsb(bits, pos, 3) == Got(final, pos + 3)
    ensures InflateStored(bits, pos + 3, out) == Got(out + s, pos + 40 + 8 * |s|)
  {
    hide LsbBits, BytesBits, At, StoredHeader, LsbValue, Pow2, ReadLsb, ReadBytes, NextByte;
    Pow2Values();
    ReadLsbAt(bits, pos, final, 3);
    ReadLsbAt(bits, pos + 8, |s|, 16);
    ReadLsbAt(bits, pos + 24, 65535 - |s|, 16);
    ReadBytesAt(bits, pos + 40, s);
  }
}
