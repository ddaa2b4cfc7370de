/** `stbi_zlib_compress` of stb_image_write.h: hash chains with lazy matching,
    fixed-Huffman output, the stored-block fallback and the Adler-32 trailer. */
module ZlibWriter {
  import opened Bits
  import opened Deflate
  import opened Options
  import opened StretchyBuffer
  import opened Zlib
  import opened ZlibCodes

  // ---------------------------------------------------------------- bit output

  // The bits written so far: whole bytes, then the low bits of bitbuf
  function Pending(s: seq<byte>, bitbuf: nat, bitcount: nat): seq<bit> {
    BytesBits(s) + LsbBits(bitbuf, bitcount)
  }

  // The output holds the zlib header and then the given bits, the last fewer
  // than 8 of them still in bitbuf.
  ghost predicate Written(s: seq<byte>, bitbuf: nat, bitcount: nat, bits: seq<bit>) {
    && [0x78, 0x5e] <= s && bitcount < 8 && bitbuf < Pow2(bitcount)
    && Pending(s[2..], bitbuf, bitcount) == bits
  }

  lemma PendingFlush(s: seq<byte>, bitbuf: nat, bitcount: nat)
    requires bitcount >= 8 && bitbuf < Pow2(bitcount)
    ensures bitbuf / 256 < Pow2(bitcount - 8)
    ensures Pending(s + [bitbuf % 256], bitbuf / 256, bitcount - 8) == Pending(s, bitbuf, bitcount)
  {
    hide LsbBits, BytesBits, Pow2;
    Pow2Values();
    Pow2Add(8, bitcount - 8);
    BytesBitsPush(s, bitbuf % 256);
    LsbBitsSplitByte(bitbuf, bitcount);
  }

  method Flush(out: Buffer, bitbuf: nat, bitcount: nat, ghost bits: seq<bit>) returns (bb: nat, bc: nat)
    requires out.Valid() && [0x78, 0x5e] <= out.Contents() && bitbuf < Pow2(bitcount)
    requires Pending(out.Contents()[2..], bitbuf, bitcount) == bits
    modifies out, out.mem
    ensures out.Valid() && (out.mem == old(out.mem) || fresh(out.mem))
    ensures Written(out.Contents(), bb, bc, bits)
  {
    hide Pending;
    bb, bc := bitbuf, bitcount;
    while bc >= 8
      invariant out.Valid() && (out.mem == old(out.mem) || fresh(out.mem))
      invariant [0x78, 0x5e] <= out.Contents() && bb < Pow2(bc)
      invariant Pending(out.Contents()[2..], bb, bc) == bits
      decreases bc
    {
      ghost var s := out.Contents();
      PendingFlush(s[2..], bb, bc);
      out.Push(bb % 256);
      assert out.Contents()[2..] == s[2..] + [bb % 256];
      bb, bc := bb / 256, bc - 8;
    }
  }

  lemma PendingAdd(s: seq<byte>, bitbuf: nat, bitcount: nat, code: nat, codebits: nat)
    requires bitbuf < Pow2(bitcount) && code < Pow2(codebits)
    ensures Or(bitbuf, code * Pow2(bitcount)) < Pow2(bitcount + codebits)
    ensures Pending(s, Or(bitbuf, code * Pow2(bitcount)), bitcount + codebits)
         == Pending(s, bitbuf, bitcount) + LsbBits(code, codebits)
  {
    hide LsbBits, BytesBits, Pow2, Or;
    OrDisjoint(bitbuf, code, bitcount);
    LsbBitsAppend(bitbuf, code, bitcount, codebits);
    Pow2Add(bitcount, codebits);
    SumBound(bitbuf, code, Pow2(bitcount), Pow2(codebits));
  }

  lemma SumBound(a: nat, b: nat, p: nat, q: nat)
    requires a < p && b < q
    ensures a + b * p < p * q
  {
    assert (b + 1) * p <= q * p;
  }

  // Appends codebits bits of code; the 32-bit buffer never overflows.
  method Add(out: Buffer, bitbuf: nat, bitcount: nat, code: nat, codebits: nat, ghost bits: seq<bit>)
    returns (bb: nat, bc: nat)
    requires out.Valid() && Written(out.Contents(), bitbuf, bitcount, bits)
    requires codebits <= 24 && code < Pow2(codebits)
    modifies out, out.mem
    ensures out.Valid() && (out.mem == old(out.mem) || fresh(out.mem))
    ensures Written(out.Contents(), bb, bc, bits + LsbBits(code, codebits))
  {
    hide Pending, LsbBits, Pow2, Or;
    PendingAdd(out.Contents()[2..], bitbuf, bitcount, code, codebits);
    bb := Or(bitbuf, code * Pow2(bitcount));
    bc := bitcount + codebits;
    assert bb < 0x1_0000_0000 by {
      Pow2Values();
      Pow2Monotone(bc, 32);
    }
    bb, bc := Flush(out, bb, bc, bits + LsbBits(code, codebits));
  }

  lemma OrLowBit(v: nat, b: bit)
    ensures Or(2 * v, b) == 2 * v + b
  {
    Pow2Values();
    OrCommutes(2 * v, b);
    OrDisjoint(b, v, 1);
  }

  lemma BitrevStep(c: nat, m: nat, res: nat, k: nat)
    requires m > 0 && res < Pow2(k)
    ensures Or(2 * res, c % 2) < Pow2(k + 1)
    ensures MsbBits(c / 2, m - 1) + LsbBits(Or(2 * res, c % 2), k + 1) == MsbBits(c, m) + LsbBits(res, k)
  {
    hide Or, MsbBits;
    OrLowBit(res, c % 2);
    var v := 2 * res + c % 2;
    assert v % 2 == c % 2 && v / 2 == res;
    assert LsbBits(v, k + 1) == [c % 2] + LsbBits(res, k);
    MsbBitsStep(c, m);
  }

  // Reverses the low bits of a code, so that writing the result least
  // significant first writes the code most significant first.
  method Bitrev(code: nat, codebits: nat) returns (res: nat)
    ensures res < Pow2(codebits)
    ensures LsbBits(res, codebits) == MsbBits(code, codebits)
  {
    hide LsbBits, MsbBits, Pow2, Or;
    res := 0;
    var c, m := code, codebits;
    BitrevEnds(code);
    while m > 0
      invariant 0 <= m <= codebits && res < Pow2(codebits - m)
      invariant MsbBits(c, m) + LsbBits(res, codebits - m) == MsbBits(code, codebits)
      decreases m
    {
      BitrevStep(c, m, res, codebits - m);
      m, res, c := m - 1, Or(2 * res, c % 2), c / 2;
    }
    BitrevEnds(c);
  }

  lemma MsbBitsStep(c: nat, m: nat)
    requires m > 0
    ensures MsbBits(c, m) == MsbBits(c / 2, m - 1) + [c % 2]
  {
  }

  lemma BitrevEnds(c: nat)
    ensures MsbBits(c, 0) == [] && LsbBits(0, 0) == []
  {
  }

  method HuffA(out: Buffer, bitbuf: nat, bitcount: nat, code: nat, codebits: nat, ghost bits: seq<bit>)
    returns (bb: nat, bc: nat)
    requires out.Valid() && Written(out.Contents(), bitbuf, bitcount, bits)
    requires codebits <= 24
    modifies out, out.mem
    ensures out.Valid() && (out.mem == old(out.mem) || fresh(out.mem))
    ensures Written(out.Contents(), bb, bc, bits + MsbBits(code, codebits))
  {
    var r := Bitrev(code, codebits);
    bb, bc := Add(out, bitbuf, bitcount, r, codebits, bits);
  }

  // The code of symbol n in the fixed literal/length code
  method Huff(out: Buffer, bitbuf: nat, bitcount: nat, n: nat, ghost bits: seq<bit>)
    returns (bb: nat, bc: nat)
    requires out.Valid() && Written(out.Contents(), bitbuf, bitcount, bits)
    requires n <= 287
    modifies out, out.mem
    ensures out.Valid() && (out.mem == old(out.mem) || fresh(out.mem))
    ensures Written(out.Contents(), bb, bc, bits + FixedCodeBits(n))
  {
    hide Written, MsbBits;
    if n <= 143 {
      bb, bc := HuffA(out, bitbuf, bitcount, 0x30 + n, 8, bits);
    } else if n <= 255 {
      bb, bc := HuffA(out, bitbuf, bitcount, 0x190 + n - 144, 9, bits);
    } else if n <= 279 {
      bb, bc := HuffA(out, bitbuf, bitcount, 0 + n - 256, 7, bits);
    } else {
      bb, bc := HuffA(out, bitbuf, bitcount, 0xc0 + n - 280, 8, bits);
    }
  }

  // ------------------------------------------------------------------- matches

  lemma AgreeFirst(data: seq<byte>, a: nat, b: nat, n: nat)
    requires a <= b && b + 1 + n <= |data| && data[a] == data[b]
    requires data[a + 1..a + 1 + n] == data[b + 1..b + 1 + n]
    ensures data[a..a + n + 1] == data[b..b + n + 1]
  {
    assert data[a..a + n + 1] == [data[a]] + data[a + 1..a + 1 + n];
    assert data[b..b + n + 1] == [data[b]] + data[b + 1..b + 1 + n];
  }

  // How far the bytes at a and b agree, up to the given limit
  function CommonLength(data: seq<byte>, a: nat, b: nat, limit: nat): (n: nat)
    requires a <= b && b + limit <= |data|
    ensures n <= limit && data[a..a + n] == data[b..b + n]
    ensures n < limit ==> data[a + n] != data[b + n]
    decreases limit
  {
    if limit == 0 || data[a] != data[b] then 0
    else
      var n := CommonLength(data, a + 1, b + 1, limit - 1);
      AgreeFirst(data, a, b, n);
      n + 1
  }

  // The length of the match of position p at position i
  function MatchLength(data: seq<byte>, p: nat, i: nat): (n: nat)
    requires p < i <= |data|
    ensures n <= 258 && i + n <= |data|
    ensures data[p..p + n] == data[i..i + n]
  {
    hide CommonLength;
    CommonLength(data, p, i, Limit(|data| - i))
  }

  function Limit(n: nat): (limit: nat)
    ensures limit <= n && limit <= 258
  {
    if n < 258 then n else 258
  }

  lemma AgreeAt(data: seq<byte>, a: nat, b: nat, n: nat, j: nat)
    requires a <= b && b + n <= |data| && data[a..a + n] == data[b..b + n]
    ensures j < n ==> data[a + j] == data[b + j]
  {
    if j < n {
      assert data[a..a + n][j] == data[b..b + n][j];
    }
  }

  // Agreement stops where the bytes differ.
  lemma CommonLengthIs(data: seq<byte>, a: nat, b: nat, limit: nat, k: nat)
    requires a <= b && b + limit <= |data| && k <= limit && data[a..a + k] == data[b..b + k]
    requires k == limit || data[a + k] != data[b + k]
    ensures CommonLength(data, a, b, limit) == k
  {
    hide CommonLength;
    var n := CommonLength(data, a, b, limit);
    AgreeAt(data, a, b, k, n);
    AgreeAt(data, a, b, n, k);
  }

  lemma AgreeOneMore(data: seq<byte>, a: nat, b: nat, n: nat)
    requires a <= b && b + n < |data| && data[a..a + n] == data[b..b + n] && data[a + n] == data[b + n]
    ensures data[a..a + n + 1] == data[b..b + n + 1]
  {
    assert data[a..a + n + 1] == data[a..a + n] + [data[a + n]];
    assert data[b..b + n + 1] == data[b..b + n] + [data[b + n]];
  }

  method CountM(data: seq<byte>, p: nat, i: nat, limit: nat) returns (n: nat)
    requires p < i <= |data| && limit == |data| - i
    ensures n == MatchLength(data, p, i)
  {
    hide CommonLength;
    n := 0;
    while n < limit && n < 258
      invariant n <= limit && n <= 258
      invariant data[p..p + n] == data[i..i + n]
    {
      if data[p + n] != data[i + n] {
        break;
      }
      AgreeOneMore(data, p, i, n);
      n := n + 1;
    }
    CommonLengthIs(data, p, i, Limit(limit), n);
  }

  const ZHASH: nat := 16384

  // The table index of three bytes
  function ZHash(b0: byte, b1: byte, b2: byte): (h: nat)
    ensures h < ZHASH
  {
    var h0: bv32 := (b0 as bv32) + ((b1 as bv32) << 8) + ((b2 as bv32) << 16);
    var h1 := h0 ^ (h0 << 3);
    var h2 := h1 + (h1 >> 5);
    var h3 := h2 ^ (h2 << 4);
    var h4 := h3 + (h3 >> 17);
    var h5 := h4 ^ (h4 << 25);
    var h6 := h5 + (h5 >> 6);
    (h6 as int) % ZHASH
  }

  // A bucket holds earlier positions in increasing order, 2 * quality at most.
  ghost predicate BucketOk(bucket: seq<nat>, i: nat, quality: nat) {
    && |bucket| <= 2 * quality
    && (forall k | 0 <= k < |bucket| :: bucket[k] < i)
    && (forall k, m | 0 <= k < m < |bucket| :: bucket[k] < bucket[m])
  }

  ghost predicate TableOk(table: seq<seq<nat>>, i: nat, quality: nat) {
    |table| == ZHASH && forall h | 0 <= h < ZHASH :: BucketOk(table[h], i, quality)
  }

  predicate InWindow(p: nat, i: nat) {
    p > i - 32768
  }

  // Entry k of the bucket lies in the window and matches best bytes, those behind it fewer.
  ghost predicate LastBest(data: seq<byte>, bucket: seq<nat>, i: nat, k: nat, best: nat)
    requires i <= |data| && forall m | 0 <= m < |bucket| :: bucket[m] < i
  {
    && k < |bucket| && InWindow(bucket[k], i) && MatchLength(data, bucket[k], i) == best
    && forall m | k < m < |bucket| && InWindow(bucket[m], i) :: MatchLength(data, bucket[m], i) < best
  }

  // The longest match of a bucket that lies in the window, the last such one;
  // loc is -1 when no match has 3 bytes.
  method LongestMatch(data: seq<byte>, bucket: seq<nat>, i: nat, ghost quality: nat) returns (best: nat, loc: int)
    requires i <= |data| && BucketOk(bucket, i, quality)
    ensures loc == -1 <==> forall k | 0 <= k < |bucket| && InWindow(bucket[k], i) :: MatchLength(data, bucket[k], i) < 3
    ensures loc == -1 ==> best == 3
    ensures loc != -1 ==> loc in bucket && InWindow(loc, i) && best == MatchLength(data, loc, i) >= 3
    ensures forall k | 0 <= k < |bucket| && InWindow(bucket[k], i) :: MatchLength(data, bucket[k], i) <= best
    ensures loc != -1 ==> exists k | 0 <= k < |bucket| && bucket[k] == loc :: LastBest(data, bucket, i, k, best)
  {
    hide MatchLength;
    best, loc := 3, -1;
    ghost var last := 0;
    for j := 0 to |bucket|
      invariant loc == -1 <==> forall k | 0 <= k < j && InWindow(bucket[k], i) :: MatchLength(data, bucket[k], i) < 3
      invariant loc == -1 ==> best == 3
      invariant loc != -1 ==> loc in bucket && InWindow(loc, i) && best == MatchLength(data, loc, i) >= 3
      invariant forall k | 0 <= k < j && InWindow(bucket[k], i) :: MatchLength(data, bucket[k], i) <= best
      invariant loc != -1 ==> last < j && bucket[last] == loc
      invariant loc != -1 ==> forall k | last < k < j && InWindow(bucket[k], i) :: MatchLength(data, bucket[k], i) < best
    {
      if bucket[j] > i - 32768 {
        var d := CountM(data, bucket[j], i, |data| - i);
        if d >= best {
          best, loc := d, bucket[j];
          last := j;
        }
      }
    }
    assert loc != -1 ==> LastBest(data, bucket, i, last, best);
  }

  // Lazy matching: whether position i has a match in the bucket that beats best
  method BetterMatch(data: seq<byte>, bucket: seq<nat>, i: nat, best: nat, ghost quality: nat) returns (found: bool)
    requires i <= |data| && BucketOk(bucket, i, quality)
    ensures found <==> exists k | 0 <= k < |bucket| && InWindow(bucket[k], i) :: MatchLength(data, bucket[k], i) > best
  {
    hide MatchLength;
    found := false;
    for j := 0 to |bucket|
      invariant !found
      invariant forall k | 0 <= k < j && InWindow(bucket[k], i) :: MatchLength(data, bucket[k], i) <= best
    {
      if bucket[j] > i - 32768 {
        var e := CountM(data, bucket[j], i, |data| - i);
        if e > best {
          return true;
        }
      }
    }
  }

  // ---------------------------------------------------------------- compression

  method FindSlot(starts: seq<nat>, v: nat) returns (j: nat)
    requires 1 < |starts| && starts[0] <= v < starts[|starts| - 1]
    ensures j == Slot(starts, v, 0)
  {
    j := 0;
    while v as int > starts[j + 1] as int - 1
      invariant j + 1 < |starts| && starts[j] <= v
      invariant Slot(starts, v, j) == Slot(starts, v, 0)
      decreases |starts| - j
    {
      j := j + 1;
    }
  }

  method FindLengthSlot(len: nat) returns (j: nat)
    requires 3 <= len <= 258
    ensures j == LengthSlot(len)
  {
    j := FindSlot(LENGTHC, len);
    assert LENGTHC[LengthSlot(len)] <= len;
  }

  method FindDistSlot(dist: nat) returns (j: nat)
    requires 1 <= dist <= 32767
    ensures j == DistSlot(dist)
  {
    j := FindSlot(DISTC, dist);
    assert DISTC[DistSlot(dist)] <= dist;
  }

  method AddExtra(out: Buffer, bitbuf: nat, bitcount: nat, code: nat, codebits: nat, ghost bits: seq<bit>)
    returns (bb: nat, bc: nat)
    requires out.Valid() && Written(out.Contents(), bitbuf, bitcount, bits)
    requires codebits <= 24 && code < Pow2(codebits)
    modifies out, out.mem
    ensures out.Valid() && (out.mem == old(out.mem) || fresh(out.mem))
    ensures Written(out.Contents(), bb, bc, bits + LsbBits(code, codebits))
  {
    bb, bc := bitbuf, bitcount;
    if codebits != 0 {
      bb, bc := Add(out, bb, bc, code, codebits, bits);
    }
  }

  method EmitLength(out: Buffer, bitbuf: nat, bitcount: nat, len: nat, ghost bits: seq<bit>)
    returns (bb: nat, bc: nat)
    requires out.Valid() && Written(out.Contents(), bitbuf, bitcount, bits)
    requires 3 <= len <= 258
    modifies out, out.mem
    ensures out.Valid() && (out.mem == old(out.mem) || fresh(out.mem))
    ensures Written(out.Contents(), bb, bc, bits + LengthBits(len))
  {
    hide *;
    var j := FindLengthSlot(len);
    LengthTable(j);
    LengthBitsParts(len, j);
    ghost var code, extra := FixedCodeBits(257 + j), LsbBits(len - LengthBase(257 + j), LengthExtra(257 + j));
    ConcatAssoc(bits, code, extra);
    bb, bc := Huff(out, bitbuf, bitcount, j + 257, bits);
    bb, bc := AddExtra(out, bb, bc, len - LENGTHC[j], LENGTHEB[j], bits + code);
  }

  method EmitDist(out: Buffer, bitbuf: nat, bitcount: nat, dist: nat, ghost bits: seq<bit>)
    returns (bb: nat, bc: nat)
    requires out.Valid() && Written(out.Contents(), bitbuf, bitcount, bits)
    requires 1 <= dist <= 32767
    modifies out, out.mem
    ensures out.Valid() && (out.mem == old(out.mem) || fresh(out.mem))
    ensures Written(out.Contents(), bb, bc, bits + DistBits(dist))
  {
    hide *;
    var j := FindDistSlot(dist);
    DistTable(j);
    DistBitsParts(dist, j);
    ghost var code, extra := MsbBits(j, 5), LsbBits(dist - DistBase(j), DistExtra(j));
    ConcatAssoc(bits, code, extra);
    var r := Bitrev(j, 5);
    bb, bc := Add(out, bitbuf, bitcount, r, 5, bits);
    bb, bc := AddExtra(out, bb, bc, dist - DISTC[j], DISTEB[j], bits + code);
  }

  // A bucket after position i, the older half of a full one dropped first
  function Enter(bucket: seq<nat>, i: nat, quality: nat): seq<nat> {
    (if |bucket| == 2 * quality then bucket[quality..] else bucket) + [i]
  }

  method Remember(table: array<seq<nat>>, h: nat, i: nat, quality: nat)
    requires h < ZHASH && quality >= 5 && TableOk(table[..], i, quality)
    modifies table
    ensures table[..] == old(table[..])[h := Enter(old(table[..])[h], i, quality)]
    ensures TableOk(table[..], i + 1, quality)
  {
    assert BucketOk(table[..][h], i, quality);
    if |table[h]| == 2 * quality {
      table[h] := table[h][quality..];
    }
    table[h] := table[h] + [i];
    assert BucketOk(table[h], i + 1, quality);
    forall k | 0 <= k < ZHASH ensures BucketOk(table[..][k], i + 1, quality) {
      assert k != h ==> table[..][k] == old(table[..])[k];
      assert BucketOk(old(table[..])[k], i, quality);
    }
  }

  // The bucket has a match of at least min bytes for position i.
  ghost predicate HasMatch(data: seq<byte>, bucket: seq<nat>, i: nat, min: nat)
    requires i <= |data| && forall k | 0 <= k < |bucket| :: bucket[k] < i
  {
    exists k | 0 <= k < |bucket| && InWindow(bucket[k], i) :: MatchLength(data, bucket[k], i) >= min
  }

  // The lazy rule, over the hash buckets for position i and for the byte after it: a
  // copy of the last of the longest matches, unless there is none or the next
  // byte has a longer one
  ghost predicate LazyChoice(data: seq<byte>, here: seq<nat>, next: seq<nat>, i: nat, t: Token)
    requires i < |data| && (forall k | 0 <= k < |here| :: here[k] < i)
    requires forall k | 0 <= k < |next| :: next[k] < i + 1
  {
    if t.Copy? then
      && t.len >= 3 && HasMatch(data, here, i, t.len) && !HasMatch(data, here, i, t.len + 1)
      && !HasMatch(data, next, i + 1, t.len + 1)
      && exists k | 0 <= k < |here| && here[k] == i - t.dist :: LastBest(data, here, i, k, t.len)
    else
      && t == Literal(data[i])
      && (!HasMatch(data, here, i, 3) ||
          exists best: nat ::
            best >= 3 && HasMatch(data, here, i, best) && !HasMatch(data, here, i, best + 1) && HasMatch(data, next, i + 1, best + 1))
  }

  function HashAt(data: seq<byte>, i: nat): (h: nat)
    requires i + 2 < |data|
    ensures h < ZHASH
  {
    ZHash(data[i], data[i + 1], data[i + 2])
  }

  // One element of the compressed stream: the longest match in the hash chain
  // of position i, unless position i + 1 has a longer one, else a literal
  method ChooseToken(data: seq<byte>, table: array<seq<nat>>, i: nat, quality: nat) returns (t: Token)
    requires i + 3 < |data| && quality >= 5 && TableOk(table[..], i, quality)
    modifies table
    ensures var h := HashAt(data, i);
            table[..] == old(table[..])[h := Enter(old(table[..])[h], i, quality)]
    ensures TableOk(table[..], i + 1, quality)
    ensures Stands(t, data, i)
    ensures BucketOk(old(table[..])[HashAt(data, i)], i, quality)
    ensures BucketOk(table[..][HashAt(data, i + 1)], i + 1, quality)
    ensures LazyChoice(data, old(table[..])[HashAt(data, i)], table[..][HashAt(data, i + 1)], i, t)
  {
    hide ZHash, MatchLength;
    var h := HashAt(data, i);
    ghost var here := table[..][h];
    assert BucketOk(here, i, quality);
    var best, loc := LongestMatch(data, table[h], i, quality);
    Remember(table, h, i, quality);
    t := Literal(data[i]);
    ghost var next := table[..][HashAt(data, i + 1)];
    assert BucketOk(next, i + 1, quality);
    if loc != -1 {
      h := HashAt(data, i + 1);
      var better := BetterMatch(data, table[h], i + 1, best, quality);
      assert HasMatch(data, here, i, best) && !HasMatch(data, here, i, best + 1);
      if !better {
        t := Copy(best, i - loc);
      }
    }
  }

  method EmitToken(out: Buffer, bitbuf: nat, bitcount: nat, t: Token, ghost bits: seq<bit>)
    returns (bb: nat, bc: nat)
    requires out.Valid() && Written(out.Contents(), bitbuf, bitcount, bits)
    requires IsToken(t) && !t.EndOfBlock?
    modifies out, out.mem
    ensures out.Valid() && (out.mem == old(out.mem) || fresh(out.mem))
    ensures Written(out.Contents(), bb, bc, bits + TokenBits(t))
  {
    hide Written, LengthBits, DistBits, FixedCodeBits;
    if t.Copy? {
      ConcatAssoc(bits, LengthBits(t.len), DistBits(t.dist));
      bb, bc := EmitLength(out, bitbuf, bitcount, t.len, bits);
      bb, bc := EmitDist(out, bb, bc, t.dist, bits + LengthBits(t.len));
    } else {
      bb, bc := Huff(out, bitbuf, bitcount, t.b, bits);
    }
  }

  // --------------------------------------------------------------- the lazy rule

  // Where the tokens end, and where each starts
  function Total(ts: seq<Token>): nat {
    if ts == [] then 0 else Total(ts[..|ts| - 1]) + Width(ts[|ts| - 1])
  }

  function Starts(ts: seq<Token>): seq<nat> {
    if ts == [] then [] else Starts(ts[..|ts| - 1]) + [Total(ts[..|ts| - 1])]
  }

  // What a hash bucket has kept of these positions
  function Kept(data: seq<byte>, starts: seq<nat>, h: nat, quality: nat): seq<nat> {
    if starts == [] then []
    else
      var p, bucket := starts[|starts| - 1], Kept(data, starts[..|starts| - 1], h, quality);
      if p + 2 < |data| && HashAt(data, p) == h then Enter(bucket, p, quality) else bucket
  }

  // The token t at position i, behind tokens with these starts
  ghost predicate Follows(data: seq<byte>, starts: seq<nat>, i: nat, t: Token, quality: nat) {
    if i + 3 < |data| then
      var here, next := Kept(data, starts, HashAt(data, i), quality), Kept(data, starts + [i], HashAt(data, i + 1), quality);
      BucketOk(here, i, quality) && BucketOk(next, i + 1, quality) && LazyChoice(data, here, next, i, t)
    else i < |data| && t == Literal(data[i])
  }

  // Every token is the one that the lazy rule chooses; the last three bytes are
  // literals.
  ghost predicate Lazy(ts: seq<Token>, data: seq<byte>, quality: nat) {
    forall k | 0 <= k < |ts| :: Follows(data, Starts(ts[..k]), Total(ts[..k]), ts[k], quality)
  }

  lemma StartsPush(ts: seq<Token>, t: Token)
    ensures Total(ts + [t]) == Total(ts) + Width(t) && Starts(ts + [t]) == Starts(ts) + [Total(ts)]
  {
    assert (ts + [t])[..|ts|] == ts;
  }

  lemma LazyPush(ts: seq<Token>, t: Token, data: seq<byte>, quality: nat)
    requires Lazy(ts, data, quality) && Follows(data, Starts(ts), Total(ts), t, quality)
    ensures Lazy(ts + [t], data, quality)
  {
    hide Follows, Starts, Total;
    var longer := ts + [t];
    assert longer[..|ts|] == ts;
    forall k | 0 <= k < |longer|
      ensures Follows(data, Starts(longer[..k]), Total(longer[..k]), longer[k], quality)
    {
      if k < |ts| {
        assert longer[..k] == ts[..k];
      }
    }
  }

  // The table holds what its buckets have kept.
  ghost predicate KeptTable(table: seq<seq<nat>>, data: seq<byte>, starts: seq<nat>, quality: nat) {
    |table| == ZHASH && forall h | 0 <= h < ZHASH :: table[h] == Kept(data, starts, h, quality)
  }

  lemma KeptNone(table: seq<seq<nat>>, data: seq<byte>, quality: nat)
    requires |table| == ZHASH && forall h | 0 <= h < ZHASH :: table[h] == []
    ensures KeptTable(table, data, [], quality)
  {
  }

  lemma KeptOne(data: seq<byte>, starts: seq<nat>, i: nat, h: nat, quality: nat)
    requires i + 2 < |data|
    ensures Kept(data, starts + [i], h, quality)
         == if HashAt(data, i) == h then Enter(Kept(data, starts, h, quality), i, quality) else Kept(data, starts, h, quality)
  {
    hide HashAt, Enter;
    assert (starts + [i])[..|starts|] == starts;
  }

  // One position more
  lemma KeptNext(table: seq<seq<nat>>, table': seq<seq<nat>>, data: seq<byte>, starts: seq<nat>, i: nat, quality: nat)
    requires KeptTable(table, data, starts, quality) && i + 2 < |data|
    requires table' == table[HashAt(data, i) := Enter(table[HashAt(data, i)], i, quality)]
    ensures KeptTable(table', data, starts + [i], quality)
  {
    hide HashAt, Enter, Kept;
    forall h | 0 <= h < ZHASH
      ensures table'[h] == Kept(data, starts + [i], h, quality)
    {
      KeptOne(data, starts, i, h, quality);
    }
  }

  // The token is chosen by the lazy rule from the table, which then has position i too.
  ghost predicate Chosen(table: seq<seq<nat>>, table': seq<seq<nat>>, data: seq<byte>, i: nat, t: Token, quality: nat) {
    && |table| == |table'| == ZHASH && i + 3 < |data|
    && table' == table[HashAt(data, i) := Enter(table[HashAt(data, i)], i, quality)]
    && BucketOk(table[HashAt(data, i)], i, quality) && BucketOk(table'[HashAt(data, i + 1)], i + 1, quality)
    && LazyChoice(data, table[HashAt(data, i)], table'[HashAt(data, i + 1)], i, t)
  }

  // Such a token is the one of the lazy rule for the starts kept in the table.
  lemma ChosenFollows(table: seq<seq<nat>>, table': seq<seq<nat>>, data: seq<byte>, starts: seq<nat>, i: nat, t: Token,
                      quality: nat)
    requires KeptTable(table, data, starts, quality) && KeptTable(table', data, starts + [i], quality)
    requires Chosen(table, table', data, i, t, quality)
    ensures Follows(data, starts, i, t, quality)
  {
    hide HashAt, Kept, LazyChoice;
  }

  // Writes data as tokens: matches while four bytes remain, then literals.
  method EncodeTokens(data: seq<byte>, out: Buffer, bitbuf: nat, bitcount: nat, quality: nat, ghost bits: seq<bit>)
    returns (bb: nat, bc: nat, ghost ts: seq<Token>)
    requires out.Valid() && Written(out.Contents(), bitbuf, bitcount, bits) && quality >= 5
    modifies out, out.mem
    ensures out.Valid() && (out.mem == old(out.mem) || fresh(out.mem))
    ensures Covers(ts, data, |data|) && Lazy(ts, data, quality)
    ensures Written(out.Contents(), bb, bc, bits + TokensBits(ts))
  {
    hide Written, TokenBits, TokensBits, Covers, BucketOk, TableOk, LazyChoice, Enter, HashAt, Lazy, Starts, Total, KeptTable,
      Follows;
    bb, bc, ts := bitbuf, bitcount, [];
    var table := new seq<nat>[ZHASH](_ => []);
    EmptyTable(table[..], quality);
    KeptNone(table[..], data, quality);
    CoversNothing(data);
    LazyNothing(data, quality);
    assert bits + [] == bits;
    var i := 0;
    while i < |data| - 3
      invariant out.Valid() && (out.mem == old(out.mem) || fresh(out.mem)) && fresh(table)
      invariant i <= |data| && TableOk(table[..], i, quality)
      invariant Covers(ts, data, i) && AreTokens(ts)
      invariant Lazy(ts, data, quality) && i == Total(ts) && KeptTable(table[..], data, Starts(ts), quality)
      invariant Written(out.Contents(), bb, bc, bits + TokensBits(ts))
      decreases |data| - i
    {
      ghost var before := table[..];
      var t := ChooseToken(data, table, i, quality);
      NextToken(before, table[..], ts, data, t, quality);
      CoversPush(ts, data, i, t);
      ConcatAssoc(bits, TokensBits(ts), TokenBits(t));
      bb, bc := EmitToken(out, bb, bc, t, bits + TokensBits(ts));
      LaterTable(table[..], i + 1, i + Width(t), quality);
      ts, i := ts + [t], i + Width(t);
    }
    while i < |data|
      invariant out.Valid() && (out.mem == old(out.mem) || fresh(out.mem))
      invariant |data| - 3 <= i <= |data|
      invariant Covers(ts, data, i) && AreTokens(ts)
      invariant Lazy(ts, data, quality) && i == Total(ts)
      invariant Written(out.Contents(), bb, bc, bits + TokensBits(ts))
    {
      var t := Literal(data[i]);
      CoversPush(ts, data, i, t);
      LastFollows(ts, data, quality);
      ConcatAssoc(bits, TokensBits(ts), TokenBits(t));
      bb, bc := EmitToken(out, bb, bc, t, bits + TokensBits(ts));
      ts, i := ts + [t], i + 1;
    }
  }

  lemma LazyNothing(data: seq<byte>, quality: nat)
    ensures Lazy([], data, quality) && Total([]) == 0 && Starts([]) == []
  {
  }

  lemma NextToken(table: seq<seq<nat>>, table': seq<seq<nat>>, ts: seq<Token>, data: seq<byte>, t: Token, quality: nat)
    requires Lazy(ts, data, quality) && KeptTable(table, data, Starts(ts), quality)
    requires Chosen(table, table', data, Total(ts), t, quality)
    ensures Lazy(ts + [t], data, quality) && KeptTable(table', data, Starts(ts + [t]), quality)
    ensures Total(ts + [t]) == Total(ts) + Width(t)
  {
    hide HashAt, Enter, Kept, KeptTable, LazyChoice, BucketOk, Lazy, Follows, Starts, Total, Chosen;
    StartsPush(ts, t);
    ChosenTable(table, table', data, Total(ts), t, quality);
    KeptNext(table, table', data, Starts(ts), Total(ts), quality);
    ChosenFollows(table, table', data, Starts(ts), Total(ts), t, quality);
    LazyPush(ts, t, data, quality);
  }

  lemma ChosenTable(table: seq<seq<nat>>, table': seq<seq<nat>>, data: seq<byte>, i: nat, t: Token, quality: nat)
    requires Chosen(table, table', data, i, t, quality)
    ensures |table| == ZHASH && i + 3 < |data|
    ensures table' == table[HashAt(data, i) := Enter(table[HashAt(data, i)], i, quality)]
  {
    hide HashAt, Enter, LazyChoice, BucketOk;
  }

  lemma LastFollows(ts: seq<Token>, data: seq<byte>, quality: nat)
    requires Lazy(ts, data, quality) && |data| - 3 <= Total(ts) < |data|
    ensures var t := Literal(data[Total(ts)]);
            Lazy(ts + [t], data, quality) && Total(ts + [t]) == Total(ts) + 1
  {
    hide Lazy, Starts, Total;
    StartsPush(ts, Literal(data[Total(ts)]));
    LazyPush(ts, Literal(data[Total(ts)]), data, quality);
  }

  lemma EmptyTable(table: seq<seq<nat>>, quality: nat)
    requires |table| == ZHASH && forall h | 0 <= h < ZHASH :: table[h] == []
    ensures TableOk(table, 0, quality)
  {
  }

  lemma LaterTable(table: seq<seq<nat>>, i: nat, i': nat, quality: nat)
    requires i <= i' && TableOk(table, i, quality)
    ensures TableOk(table, i', quality)
  {
    forall h | 0 <= h < ZHASH ensures BucketOk(table[h], i', quality) {
      assert BucketOk(table[h], i, quality);
    }
  }

  lemma PadStep(bits: seq<bit>, k: nat)
    ensures (bits + LsbBits(0, k)) + LsbBits(0, 1) == bits + LsbBits(0, k + 1)
  {
    hide LsbBits;
    LsbBitsAppend(0, 0, k, 1);
    ConcatAssoc(bits, LsbBits(0, k), LsbBits(0, 1));
  }

  lemma WrittenSize(s: seq<byte>, bitbuf: nat, bitcount: nat, bits: seq<bit>)
    requires Written(s, bitbuf, bitcount, bits)
    ensures |s| >= 2 && bitcount < 8 && |bits| == 8 * (|s| - 2) + bitcount
  {
  }

  // Pads with zero bits to a byte boundary.
  method Pad(out: Buffer, bitbuf: nat, bitcount: nat, ghost bits: seq<bit>) returns (ghost k: nat)
    requires out.Valid() && Written(out.Contents(), bitbuf, bitcount, bits)
    modifies out, out.mem
    ensures out.Valid() && (out.mem == old(out.mem) || fresh(out.mem))
    ensures k < 8 && Written(out.Contents(), 0, 0, bits + LsbBits(0, k))
  {
    hide Written, LsbBits;
    k := 0;
    var bb, bc := bitbuf, bitcount;
    NoPadding(bits);
    WrittenSize(out.Contents(), bb, bc, bits);
    while bc != 0
      invariant out.Valid() && (out.mem == old(out.mem) || fresh(out.mem))
      invariant bc < 8 && (k > 0 ==> bitcount + k <= 8) && bc == (bitcount + k) % 8
      invariant bc != 0 ==> bc == bitcount + k
      invariant k > 0 ==> bitcount > 0
      invariant Written(out.Contents(), bb, bc, bits + LsbBits(0, k))
      decreases if bc == 0 then 0 else 8 - bc
    {
      ghost var before := bits + LsbBits(0, k);
      WrittenSize(out.Contents(), bb, bc, before);
      PadStep(bits, k);
      OneBit();
      bb, bc := Add(out, bb, bc, 0, 1, before);
      k := k + 1;
      WrittenSize(out.Contents(), bb, bc, bits + LsbBits(0, k));
    }
    WrittenNoBits(out.Contents(), bb, bits + LsbBits(0, k));
  }

  lemma NoPadding(bits: seq<bit>)
    ensures bits + LsbBits(0, 0) == bits
  {
  }

  lemma OneBit()
    ensures Pow2(1) == 2
  {
  }

  lemma WrittenNoBits(s: seq<byte>, bitbuf: nat, bits: seq<bit>)
    requires Written(s, bitbuf, 0, bits)
    ensures bitbuf == 0 && Written(s, 0, 0, bits) && BytesBits(s[2..]) == bits
  {
  }

  // UChar(v) is the C cast of an int to unsigned char.
  function UChar(v: int): byte {
    v % 256
  }

  lemma Held(out: Buffer)
    requires out.Valid()
    ensures |out.Contents()| == out.count && (out.count > 0 ==> out.count < out.mem.Length)
  {
  }

  // Replaces the compressed bytes by stored blocks.  The raw copies stay
  // inside the capacity that the longer compressed output left behind.
  method Store(data: seq<byte>, out: Buffer)
    requires out.Valid() && [0x78, 0x5e] <= out.Contents()
    requires out.count > |data| + 2 + (|data| + 32766) / 32767 * 5
    modifies out, out.mem
    ensures out.Valid() && (out.mem == old(out.mem) || fresh(out.mem))
    ensures out.Contents() == [0x78, 0x5e] + StoredBlocks(data, 0)
  {
    hide StoredBlocks, StoredHeader, Buffer.Contents, Buffer.Valid;
    StoredBlocksSize(data, 0);
    Held(out);
    ghost var total := StoredBlocks(data, 0);
    ghost var written: seq<byte> := [];
    out.Truncate(2);
    var j := 0;
    while j < |data|
      invariant out.Valid() && (out.mem == old(out.mem) || fresh(out.mem))
      invariant j <= |data| && 2 + |total| < out.mem.Length
      invariant out.Contents() == [0x78, 0x5e] + written
      invariant written + StoredBlocks(data, j) == total
    {
      var blocklen := |data| - j;
      if blocklen > 32767 {
        blocklen := 32767;
      }
      var final: bit := if |data| - j == blocklen then 1 else 0;
      StoredStep(data, j, blocklen, final, written, total);
      Held(out);
      StoreBlock(out, final, data[j..j + blocklen]);
      written := written + (StoredHeader(final, blocklen) + data[j..j + blocklen]);
      j := j + blocklen;
    }
    StoredEnd(data);
    assert written == total;
  }

  lemma StoredEnd(data: seq<byte>)
    ensures StoredBlocks(data, |data|) == []
  {
  }

  method StoreBlock(out: Buffer, final: bit, chunk: seq<byte>)
    requires out.Valid() && |chunk| < 65536 && out.count + 5 + |chunk| < out.mem.Length
    modifies out, out.mem
    ensures out.Valid() && (out.mem == old(out.mem) || fresh(out.mem))
    ensures out.mem.Length >= old(out.mem.Length)
    ensures out.Contents() == old(out.Contents()) + (StoredHeader(final, |chunk|) + chunk)
  {
    StoredHeaderSize(final, |chunk|);
    hide StoredHeader;
    PushHeader(out, final, |chunk|);
    out.CopyRaw(chunk);
  }

  lemma StoredHeaderSize(final: bit, len: nat)
    requires len < 65536
    ensures |StoredHeader(final, len)| == 5
  {
  }

  // Two bytes of an int, the low one first
  method PushWord(out: Buffer, v: int)
    requires out.Valid()
    modifies out, out.mem
    ensures out.Valid() && (out.mem == old(out.mem) || fresh(out.mem))
    ensures out.mem.Length >= old(out.mem.Length)
    ensures out.Contents() == old(out.Contents()) + [UChar(v), UChar(v / 256)]
  {
    out.Push(UChar(v));
    out.Push(UChar(v / 256));
  }

  // Sizes fit 16 bits, so that the complement is 65535 less the size.
  lemma HeaderBytes(final: bit, len: nat)
    requires len < 65536
    ensures [final] + [UChar(len), UChar(len / 256)] + [UChar(-1 - len), UChar((-1 - len) / 256)]
         == StoredHeader(final, len)
  {
  }

  method PushHeader(out: Buffer, final: bit, blocklen: nat)
    requires out.Valid() && blocklen < 65536
    modifies out, out.mem
    ensures out.Valid() && (out.mem == old(out.mem) || fresh(out.mem))
    ensures out.mem.Length >= old(out.mem.Length)
    ensures out.Contents() == old(out.Contents()) + StoredHeader(final, blocklen)
  {
    hide StoredHeader, UChar;
    HeaderBytes(final, blocklen);
    ghost var before := out.Contents();
    out.Push(final);
    PushWord(out, blocklen);
    PushWord(out, -1 - blocklen);
    assert out.Contents()
        == before + ([final] + [UChar(blocklen), UChar(blocklen / 256)] + [UChar(-1 - blocklen), UChar((-1 - blocklen) / 256)]);
  }

  lemma StoredStep(data: seq<byte>, j: nat, len: nat, final: bit, written: seq<byte>, total: seq<byte>)
    requires j < |data| && len == (if |data| - j > 32767 then 32767 else |data| - j)
    requires final == if |data| - j == len then 1 else 0
    requires written + StoredBlocks(data, j) == total
    ensures written + (StoredHeader(final, len) + data[j..j + len]) + StoredBlocks(data, j + len) == total
    ensures |written| + 5 + len <= |total|
  {
    StoredHeaderSize(final, len);
    hide StoredHeader;
  }

  // ------------------------------------------------------------------ checksum

  type uint32 = x: int | 0 <= x < 0x1_0000_0000

  lemma ModAdd(x: nat, y: nat)
    ensures (x % ADLER_BASE + y % ADLER_BASE) % ADLER_BASE == (x + y) % ADLER_BASE
  {
  }

  lemma AdlerUnfold(data: seq<byte>, k: nat)
    requires k < |data|
    ensures AdlerA(data[..k + 1]) == (AdlerA(data[..k]) + data[k]) % ADLER_BASE
    ensures AdlerB(data[..k + 1]) == (AdlerB(data[..k]) + AdlerA(data[..k + 1])) % ADLER_BASE
  {
    assert data[..k + 1][..k] == data[..k];
  }

  lemma AdlerStep(data: seq<byte>, k: nat, s1: nat, s2: nat)
    requires k < |data| && s1 % ADLER_BASE == AdlerA(data[..k]) && s2 % ADLER_BASE == AdlerB(data[..k])
    ensures (s1 + data[k]) % ADLER_BASE == AdlerA(data[..k + 1])
    ensures (s2 + (s1 + data[k])) % ADLER_BASE == AdlerB(data[..k + 1])
  {
    hide AdlerA, AdlerB;
    AdlerUnfold(data, k);
    ModAdd(s1, data[k]);
    ModAdd(s2, s1 + data[k]);
  }

  // The largest second sum after n bytes of a block
  function SumBoundAfter(n: nat): nat {
    if n == 0 then 65520 else SumBoundAfter(n - 1) + 65520 + 255 * n
  }

  lemma {:induction false} SumBoundClosed(n: nat)
    ensures 2 * SumBoundAfter(n) == 131040 * (n + 1) + 255 * (n * (n + 1))
  {
    if n == 0 {
    } else {
      SumBoundClosed(n - 1);
      assert n * (n + 1) == (n - 1) * n + 2 * n;
    }
  }

  // The sums of n bytes of a block
  predicate SumsBounded(s1: nat, s2: nat, n: nat) {
    s1 <= 65520 + 255 * n && s2 <= SumBoundAfter(n)
  }

  lemma {:induction false} SumBoundMonotone(m: nat, n: nat)
    requires m <= n
    ensures SumBoundAfter(m) <= SumBoundAfter(n)
  {
    if m == n {
    } else {
      SumBoundMonotone(m, n - 1);
    }
  }

  // Neither 32-bit sum wraps within a block of 5552 bytes.
  lemma SumsStep(s1: nat, s2: nat, n: nat, b: byte)
    requires n < 5552 && SumsBounded(s1, s2, n)
    ensures SumsBounded(s1 + b, s2 + (s1 + b), n + 1)
    ensures s2 + (s1 + b) < 0x1_0000_0000
  {
    SumBoundMonotone(n + 1, 5552);
    SumBoundClosed(5552);
  }

  // The sums of the trailer, reduced only once a block
  method AdlerSums(data: seq<byte>) returns (s1: uint32, s2: uint32)
    ensures s1 == AdlerA(data) && s2 == AdlerB(data)
  {
    hide AdlerA, AdlerB, SumsBounded;
    s1, s2 := 1, 0;
    var blocklen := |data| % 5552;
    var j := 0;
    AdlerStart(data);
    while j < |data|
      invariant j <= |data| && s1 == AdlerA(data[..j]) && s2 == AdlerB(data[..j])
      invariant (j == 0 && blocklen == |data| % 5552) || (blocklen == 5552 && (|data| - j) % 5552 == 0)
      decreases |data| - j, if blocklen == 0 then 1 else 0
    {
      s1, s2 := AdlerBlock(data, j, blocklen, s1, s2);
      j := j + blocklen;
      blocklen := 5552;
    }
    assert data[..j] == data;
  }

  lemma AdlerStart(data: seq<byte>)
    ensures AdlerA(data[..0]) == 1 && AdlerB(data[..0]) == 0
  {
  }

  method AdlerBlock(data: seq<byte>, j: nat, blocklen: nat, a: uint32, b: uint32) returns (s1: uint32, s2: uint32)
    requires j + blocklen <= |data| && blocklen <= 5552
    requires a == AdlerA(data[..j]) && b == AdlerB(data[..j])
    ensures s1 == AdlerA(data[..j + blocklen]) && s2 == AdlerB(data[..j + blocklen])
  {
    hide AdlerA, AdlerB, SumsBounded;
    s1, s2 := a, b;
    SumsStart(a, b);
    for i := 0 to blocklen
      invariant s1 % ADLER_BASE == AdlerA(data[..j + i]) && s2 % ADLER_BASE == AdlerB(data[..j + i])
      invariant SumsBounded(s1, s2, i)
    {
      AdlerStep(data, j + i, s1, s2);
      SumsStep(s1, s2, i, data[j + i]);
      s1 := s1 + data[j + i];
      s2 := s2 + s1;
    }
    s1, s2 := s1 % ADLER_BASE, s2 % ADLER_BASE;
  }

  lemma SumsStart(s1: nat, s2: nat)
    requires s1 < ADLER_BASE && s2 < ADLER_BASE
    ensures SumsBounded(s1, s2, 0)
  {
  }

  // ------------------------------------------------------------------ together

  // The fixed-code form decodes to the data it covers.
  lemma FixedDecodes(s: seq<byte>, ts: seq<Token>, data: seq<byte>, k: nat)
    requires Covers(ts, data, |data|) && AreTokens(ts) && k < 8 && [0x78, 0x5e] <= s
    requires BytesBits(s[2..]) == FixedHeader() + TokensBits(ts) + FixedCodeBits(256) + LsbBits(0, k)
    ensures Decode(s + Adler32(data)) == Some(data) && |s| > 3
  {
    hide Covers, Inflate, Decode, Adler32, BytesBits, LsbBits, TokensBits, FixedHeader, FixedCodeBits;
    var body, t := s[2..], Adler32(data);
    var stream := FixedHeader() + TokensBits(ts) + FixedCodeBits(256);
    var bits := BytesBits(body + t);
    BytesBitsConcat(body, t);
    assert bits == stream + LsbBits(0, k) + BytesBits(t);
    assert bits[..|stream|] == stream;
    AtStart(bits, stream);
    InflateFixedAt(bits, ts, data);
    StreamSize(ts);
    assert s + t == [0x78, 0x5e] + (body + t);
    DecodeStream(s + t, body, data, |stream|);
  }

  lemma AtStart(bits: seq<bit>, s: seq<bit>)
    requires |s| <= |bits| && bits[..|s|] == s
    ensures At(bits, 0, s)
  {
  }

  lemma StreamSize(ts: seq<Token>)
    requires AreTokens(ts)
    ensures |FixedHeader() + TokensBits(ts) + FixedCodeBits(256)| >= 10
  {
    hide TokensBits;
    HeaderSize();
  }

  // The stored form decodes to its data, if there is any.
  lemma StoredDecodes(data: seq<byte>)
    requires data != []
    ensures Decode([0x78, 0x5e] + StoredBlocks(data, 0) + Adler32(data)) == Some(data)
  {
    hide Inflate, Decode, Adler32, BytesBits, StoredBlocks;
    var body, t := StoredBlocks(data, 0), Adler32(data);
    var bits := BytesBits(body + t);
    BytesBitsConcat(body, t);
    assert bits[..|BytesBits(body)|] == BytesBits(body);
    AtStart(bits, BytesBits(body));
    assert data[..0] == [];
    InflateStoredBlocksAt(bits, 0, data, 0);
    assert [0x78, 0x5e] + body + t == [0x78, 0x5e] + (body + t);
    StoredBlocksSize(data, 0);
    DecodeStream([0x78, 0x5e] + body + t, body, data, 8 * |body|);
  }

  // With no data the size test keeps the bare header, which no reader accepts.
  lemma EmptyFails()
    ensures Decode([0x78, 0x5e] + Adler32([])) == None
  {
    hide BytesBits, LsbBits;
    var s, t := [0x78, 0x5e] + Adler32([]), [0, 0, 0, 1];
    EmptyAdler();
    hide Adler32, AdlerA, AdlerB;
    assert s[2..] == t;
    ZeroBits();
    ReadLsbAt(BytesBits(t), 0, 0, 3);
  }

  lemma EmptyAdler()
    ensures Adler32([]) == [0, 0, 0, 1]
  {
  }

  lemma ZeroBits()
    ensures Pow2(3) == 8 && At(BytesBits([0, 0, 0, 1]), 0, LsbBits(0, 3))
  {
    hide LsbBits, At, BytesBits;
    Pow2Values();
    BytesBitsConcat([], [0]);
    BytesBitsPush([], 0);
    BytesBitsEmpty();
    assert [] + [0] == [0];
    assert [0] + [0, 0, 1] == [0, 0, 0, 1];
    BytesBitsConcat([0], [0, 0, 1]);
    LsbBitsAppend(0, 0, 3, 5);
    var bits := BytesBits([0, 0, 0, 1]);
    assert bits[..3] == LsbBits(0, 3);
    AtStart(bits, LsbBits(0, 3));
  }

  // Writes the fixed-code form of data, padded to whole bytes.
  method WriteFixed(data: seq<byte>, quality: nat) returns (out: Buffer, ghost ts: seq<Token>, ghost k: nat)
    requires quality >= 5
    ensures fresh(out) && fresh(out.mem) && out.Valid() && [0x78, 0x5e] <= out.Contents()
    ensures Covers(ts, data, |data|) && AreTokens(ts) && k < 8 && Lazy(ts, data, quality)
    ensures BytesBits(out.Contents()[2..])
         == FixedHeader() + TokensBits(ts) + FixedCodeBits(256) + LsbBits(0, k)
  {
    out := new Buffer();
    out.Push(0x78);
    out.Push(0x5e);
    WrittenNothing(out.Contents());
    hide Written, Covers, TokensBits, FixedCodeBits, LsbBits, Lazy;
    OneBit();
    var bb, bc := Add(out, 0, 0, 1, 1, []);
    bb, bc := Add(out, bb, bc, 1, 2, [] + LsbBits(1, 1));
    assert [] + LsbBits(1, 1) + LsbBits(1, 2) == FixedHeader();
    bb, bc, ts := EncodeTokens(data, out, bb, bc, quality, FixedHeader());
    CoversTokens(ts, data);
    bb, bc := Huff(out, bb, bc, 256, FixedHeader() + TokensBits(ts));
    k := Pad(out, bb, bc, FixedHeader() + TokensBits(ts) + FixedCodeBits(256));
    WrittenNoBits(out.Contents(), 0, FixedHeader() + TokensBits(ts) + FixedCodeBits(256) + LsbBits(0, k));
    WrittenPrefix(out.Contents(), 0, 0, FixedHeader() + TokensBits(ts) + FixedCodeBits(256) + LsbBits(0, k));
  }

  lemma WrittenNothing(s: seq<byte>)
    requires s == [0x78, 0x5e]
    ensures Written(s, 0, 0, [])
  {
  }

  lemma WrittenPrefix(s: seq<byte>, bitbuf: nat, bitcount: nat, bits: seq<bit>)
    requires Written(s, bitbuf, bitcount, bits)
    ensures [0x78, 0x5e] <= s
  {
  }

  lemma CoversTokens(ts: seq<Token>, data: seq<byte>)
    requires Covers(ts, data, |data|)
    ensures AreTokens(ts)
  {
  }

  // The fixed-code form of data: the two header bytes, the lazy tokens that cover
  // it between block header and end symbol, and zero bits up to a whole byte
  ghost predicate FixedForm(fixed: seq<byte>, ts: seq<Token>, data: seq<byte>, quality: nat) {
    && [0x78, 0x5e] <= fixed && Covers(ts, data, |data|) && AreTokens(ts) && Lazy(ts, data, quality)
    && exists k | 0 <= k < 8 ::
         BytesBits(fixed[2..]) == FixedHeader() + TokensBits(ts) + FixedCodeBits(256) + LsbBits(0, k)
  }

  // The header and the form of data that is kept: the fixed one unless it is longer
  // than the stored one can be
  method WriteBody(data: seq<byte>, quality: nat) returns (out: Buffer, ghost fixed: seq<byte>, ghost ts: seq<Token>)
    requires quality >= 5
    ensures fresh(out) && fresh(out.mem) && out.Valid()
    ensures FixedForm(fixed, ts, data, quality)
    ensures out.Contents() == if |fixed| <= |data| + 2 + (|data| + 32766) / 32767 * 5 then fixed
                              else [0x78, 0x5e] + StoredBlocks(data, 0)
    ensures Decode(out.Contents() + Adler32(data)) == if data == [] then None else Some(data)
    ensures out.count <= |data| + 2 + (|data| + 32766) / 32767 * 5
  {
    hide Decode, Covers, AreTokens, TokensBits, FixedHeader, FixedCodeBits, BytesBits, LsbBits, Adler32, StoredBlocks, Lazy;
    ghost var k;
    out, ts, k := WriteFixed(data, quality);
    fixed := out.Contents();
    FixedDecodes(out.Contents(), ts, data, k);
    if out.count > |data| + 2 + (|data| + 32766) / 32767 * 5 {
      Store(data, out);
      StoredBlocksSize(data, 0);
      if data == [] {
        EmptyFails();
        assert [0x78, 0x5e] + StoredBlocks(data, 0) == [0x78, 0x5e];
      } else {
        StoredDecodes(data);
      }
    }
  }

  method WriteTrailer(data: seq<byte>, out: Buffer)
    requires out.Valid()
    modifies out, out.mem
    ensures out.Valid() && out.Contents() == old(out.Contents()) + Adler32(data)
  {
    hide Adler32;
    var s1, s2 := AdlerSums(data);
    out.Push(UChar(s2 / 256));
    out.Push(UChar(s2));
    out.Push(UChar(s1 / 256));
    out.Push(UChar(s1));
    AdlerBytes(data, s1, s2);
  }

  lemma AdlerBytes(data: seq<byte>, s1: nat, s2: nat)
    requires s1 == AdlerA(data) && s2 == AdlerB(data)
    ensures Adler32(data) == [UChar(s2 / 256), UChar(s2), UChar(s1 / 256), UChar(s1)]
  {
    hide AdlerA, AdlerB;
  }

  // stbi_zlib_compress: a zlib reader recovers every non-empty input, at any
  // quality, and the output exceeds the input by little; the lazily matched
  // fixed-code form is kept unless the stored one is shorter.
  method Compress(data: seq<byte>, quality: int) returns (r: seq<byte>, ghost fixed: seq<byte>, ghost ts: seq<Token>)
    ensures Decode(r) == if data == [] then None else Some(data)
    ensures |r| <= |data| + 6 + (|data| + 32766) / 32767 * 5
    ensures FixedForm(fixed, ts, data, if quality < 5 then 5 else quality)
    ensures r == (if |fixed| <= |data| + 2 + (|data| + 32766) / 32767 * 5 then fixed
                  else [0x78, 0x5e] + StoredBlocks(data, 0)) + Adler32(data)
  {
    hide Decode, Adler32, FixedForm, StoredBlocks;
    var out;
    out, fixed, ts := WriteBody(data, if quality < 5 then 5 else quality);
    WriteTrailer(data, out);
    r := out.mem[..out.count];
  }
}
