/** The entropy-coded segments of baseline JPEG (ITU-T T.81): a reference
    decoder for Huffman-coded blocks of 64 quantized coefficients, and the bits
    a block is coded in. */
module Jpeg {
  import opened Bits

  // A Huffman code word; length 0 stands for none.
  datatype Code = Code(bits: nat, len: nat)

  // The code word of each symbol 0..255
  type Table = nat -> Code

  // ------------------------------------------------------------------ DHT tables

  // A Huffman table as a DHT segment specifies it (section B.2.4.2): how many
  // codes of each length 1..16, and the symbols in the order of their codes
  datatype Dht = Dht(count: seq<nat>, value: nat -> nat)
  {
    predicate Valid() {
      |count| == 16
    }

    // MINCODE: the first code of length i (annex C)
    function MinCode(i: nat): nat
      requires Valid() && 1 <= i <= 16
    {
      if i == 1 then 0 else 2 * (MinCode(i - 1) + count[i - 2])
    }

    // VALPTR: the index of the first value of length i
    function ValPtr(i: nat): nat
      requires Valid() && 1 <= i <= 16
    {
      if i == 1 then 0 else ValPtr(i - 1) + count[i - 2]
    }
  }

  // DECODE of section F.2.2.3: bits are read while the code is beyond the last
  // of its length.
  function ReadCode(bits: seq<bit>, pos: nat, d: Dht, len: nat, code: nat): (r: Read<nat>)
    requires d.Valid() && len <= 16
    ensures r.Got? ==> pos <= r.pos <= |bits|
    ensures r.Got? && len == 0 ==> r.pos > pos
    decreases 16 - len
  {
    if len > 0 && pos <= |bits| && code < d.MinCode(len) + d.count[len - 1] then
      (if code < d.MinCode(len) then Fail else Got(d.value(d.ValPtr(len) + code - d.MinCode(len)), pos))
    else if len == 16 || pos >= |bits| then Fail
    else ReadCode(bits, pos + 1, d, len + 1, 2 * code + bits[pos])
  }

  function CodeBits(c: Code): (r: seq<bit>)
    ensures |r| == c.len
  {
    MsbBits(c.bits, c.len)
  }

  // The code word c is where the specification puts the symbol s.
  ghost predicate CodeOf(c: Code, s: nat, d: Dht)
    requires d.Valid()
  {
    && 1 <= c.len <= 16 && c.bits < Pow2(c.len)
    && d.MinCode(c.len) <= c.bits < d.MinCode(c.len) + d.count[c.len - 1]
    && d.value(d.ValPtr(c.len) + c.bits - d.MinCode(c.len)) == s
  }

  // The writer's table has the codes that the specification generates.
  ghost predicate Matches(ht: Table, d: Dht) {
    d.Valid() && forall s: nat | s < 256 && ht(s).len > 0 :: CodeOf(ht(s), s, d)
  }

  // A prefix of a code lies beyond the codes of its own length.
  lemma {:induction false} PrefixBeyond(code: nat, d: Dht, len: nat, k: nat)
    requires d.Valid() && 1 <= k < len <= 16 && d.MinCode(len) <= code
    ensures Shr(code, len - k) >= d.MinCode(k) + d.count[k - 1]
    decreases len
  {
    if k == len - 1 {
      assert Shr(code, 1) == Shr(code / 2, 0) == code / 2;
    } else {
      PrefixBeyond(code / 2, d, len - 1, k);
    }
  }

  lemma ReadCodeStep(bits: seq<bit>, pos: nat, d: Dht, len: nat, code: nat, code': nat)
    requires d.Valid() && len < 16 && pos < |bits| && code' == 2 * code + bits[pos]
    requires len > 0 ==> code >= d.MinCode(len) + d.count[len - 1]
    ensures ReadCode(bits, pos, d, len, code) == ReadCode(bits, pos + 1, d, len + 1, code')
  {
  }

  lemma ReadCodeDone(bits: seq<bit>, pos: nat, d: Dht, c: Code, s: nat)
    requires d.Valid() && CodeOf(c, s, d) && pos <= |bits|
    ensures Shr(c.bits, 0) == c.bits && ReadCode(bits, pos, d, c.len, c.bits) == Got(s, pos)
  {
  }

  lemma {:induction false} ReadCodeFrom(bits: seq<bit>, pos: nat, d: Dht, c: Code, s: nat, k: nat)
    requires d.Valid() && CodeOf(c, s, d) && k <= c.len && At(bits, pos, CodeBits(c))
    ensures ReadCode(bits, pos + k, d, k, Shr(c.bits, c.len - k)) == Got(s, pos + c.len)
    decreases c.len - k
  {
    hide ReadCode, MsbBits, Dht.MinCode, Dht.ValPtr;
    var code, len := c.bits, c.len;
    if k == len {
      ReadCodeDone(bits, pos + len, d, c, s);
    } else {
      ReadCodeFrom(bits, pos, d, c, s, k + 1);
      MsbBitAt(bits, pos, code, len, k);
      if k > 0 {
        PrefixBeyond(code, d, len, k);
      }
      ReadCodeStep(bits, pos + k, d, k, Shr(code, len - k), Shr(code, len - 1 - k));
    }
  }

  // A code word is read as its symbol.
  lemma ReadCodeAt(bits: seq<bit>, pos: nat, ht: Table, d: Dht, s: nat)
    requires Matches(ht, d) && s < 256 && ht(s).len > 0 && At(bits, pos, CodeBits(ht(s)))
    ensures ReadCode(bits, pos, d, 0, 0) == Got(s, pos + ht(s).len)
  {
    hide ReadCode;
    assert CodeOf(ht(s), s, d);
    ShrZero(ht(s).bits, ht(s).len);
    ReadCodeFrom(bits, pos, d, ht(s), s, 0);
  }

  // -------------------------------------------------------------- signed values

  function Abs(v: int): nat {
    if v < 0 then -v else v
  }

  // The number of bits of n
  function BitLength(n: nat): nat {
    if n == 0 then 0 else 1 + BitLength(n / 2)
  }

  // The category SSSS of a value (table F.1)
  function Category(v: int): nat {
    BitLength(Abs(v))
  }

  lemma {:induction false} BitLengthBounds(n: nat)
    ensures n < Pow2(BitLength(n))
    ensures if n == 0 then BitLength(n) == 0 else BitLength(n) > 0 && Pow2(BitLength(n) - 1) <= n
  {
    if n <= 1 {
      assert Pow2(0) == 1;
    } else {
      BitLengthBounds(n / 2);
    }
  }

  // EXTEND of section F.2.2.1
  function Extend(v: nat, t: nat): int
    requires t > 0
  {
    if v < Pow2(t - 1) then v - Pow2(t) + 1 else v
  }

  // The additional bits of a value: its low bits, or those of one less when
  // it is negative (section F.1.2.1.1)
  function ExtraValue(v: int): nat {
    BitLengthBounds(Abs(v));
    if v < 0 then v - 1 + Pow2(Category(v)) else v
  }

  lemma ExtendUndoes(v: int)
    requires v != 0
    ensures Category(v) > 0 && ExtraValue(v) < Pow2(Category(v)) && Extend(ExtraValue(v), Category(v)) == v
  {
    hide BitLength;
    BitLengthBounds(Abs(v));
  }

  // ---------------------------------------------------------------------- blocks

  // Section F.2.2.1: a DC difference
  function ReadDc(bits: seq<bit>, pos: nat, d: Dht): (r: Read<int>)
    requires d.Valid()
    ensures r.Got? ==> pos < r.pos <= |bits|
  {
    match ReadCode(bits, pos, d, 0, 0)
    case Fail => Fail
    case Got(t, p) =>
      if t == 0 then Got(0, p)
      else
        match ReadMsb(bits, p, t, 0)
        case Fail => Fail
        case Got(v, p') => Got(Extend(v, t), p')
  }

  function Zeros(n: nat): (s: seq<int>)
    ensures |s| == n && forall i | 0 <= i < n :: s[i] == 0
  {
    seq(n, _ => 0)
  }

  // Section F.2.2.2: the coefficients in zigzag order, the first |zz| known
  function ReadAc(bits: seq<bit>, pos: nat, d: Dht, zz: seq<int>): (r: Read<seq<int>>)
    requires d.Valid()
    ensures r.Got? ==> pos <= r.pos && |r.value| == 64
    ensures r.Got? && |zz| < 64 ==> r.pos <= |bits|
    decreases 64 - |zz|
  {
    if |zz| == 64 then Got(zz, pos)
    else if |zz| > 64 then Fail
    else
      match ReadCode(bits, pos, d, 0, 0)
      case Fail => Fail
      case Got(rs, p) =>
        var run, size := rs / 16, rs % 16;
        if size == 0 then
          if run == 15 then (if |zz| + 16 > 63 then Fail else ReadAc(bits, p, d, zz + Zeros(16)))
          else if run == 0 then Got(zz + Zeros(64 - |zz|), p)
          else Fail
        else if |zz| + run > 63 then Fail
        else
          match ReadMsb(bits, p, size, 0)
          case Fail => Fail
          case Got(v, p') => ReadAc(bits, p', d, zz + Zeros(run) + [Extend(v, size)])
  }

  // One block, given the DC value of the component's previous block
  function ReadBlock(bits: seq<bit>, pos: nat, dc: Dht, ac: Dht, pred: int): (r: Read<seq<int>>)
    requires dc.Valid() && ac.Valid()
    ensures r.Got? ==> pos < r.pos <= |bits| && |r.value| == 64
  {
    match ReadDc(bits, pos, dc)
    case Fail => Fail
    case Got(diff, p) => ReadAc(bits, p, ac, [pred + diff])
  }

  // ------------------------------------------------------------ the bits of blocks

  function ValueBits(v: int): seq<bit> {
    MsbBits(ExtraValue(v), Category(v))
  }

  function DcBits(diff: int, ht: Table): seq<bit> {
    if diff == 0 then CodeBits(ht(0)) else CodeBits(ht(Category(diff))) + ValueBits(diff)
  }

  // How many coefficients from k on are zero
  function ZeroRun(du: seq<int>, k: nat): (r: nat)
    requires k <= |du|
    ensures k + r <= |du| && forall i | k <= i < k + r :: du[i] == 0
    ensures k + r < |du| ==> du[k + r] != 0
    decreases |du| - k
  {
    if k == |du| || du[k] != 0 then 0 else 1 + ZeroRun(du, k + 1)
  }

  // n codes of 16 zeros
  function ZrlBits(n: nat, ht: Table): seq<bit> {
    if n == 0 then [] else CodeBits(ht(0xF0)) + ZrlBits(n - 1, ht)
  }

  // A coefficient behind run zeros (section F.1.2.2)
  function CoefficientBits(run: nat, v: int, ht: Table): seq<bit>
    requires Category(v) < 16
  {
    ZrlBits(run / 16, ht) + (CodeBits(ht(RunSize(run % 16, Category(v)))) + ValueBits(v))
  }

  // All coefficients from k on have categories 0 to 10.
  predicate SmallFrom(du: seq<int>, k: nat)
    requires k <= |du|
  {
    forall i | k <= i < |du| :: -1023 <= du[i] <= 1023
  }

  lemma SmallCategory(v: int)
    requires -1023 <= v <= 1023
    ensures Category(v) <= 10
  {
    hide BitLength, Pow2;
    Pow2Values();
    BitLengthBounds(Abs(v));
    if Category(v) > 10 {
      Pow2Monotone(10, Category(v) - 1);
    }
  }

  // The coefficients from k on
  function AcBits(du: seq<int>, k: nat, ht: Table): seq<bit>
    requires k <= |du| && SmallFrom(du, k)
    decreases |du| - k
  {
    var run := ZeroRun(du, k);
    if k == |du| then []
    else if k + run == |du| then CodeBits(ht(0))
    else SmallCategory(du[k + run]); CoefficientBits(run, du[k + run], ht) + AcBits(du, k + run + 1, ht)
  }

  // The tables have codes for what the block needs: all run/size pairs of
  // categories 1 to 10, the two special codes, and DC categories 0 to 11.
  ghost predicate AcTable(ht: Table, d: Dht) {
    && Matches(ht, d) && ht(0).len > 0 && ht(0xF0).len > 0
    && forall run: nat, size: nat | run < 16 && 1 <= size <= 10 :: ht(RunSize(run, size)).len > 0
  }

  // RRRRSSSS: the symbol of a coefficient of category size behind run zeros
  function RunSize(run: nat, size: nat): (rs: nat)
    requires run < 16 && size < 16
    ensures rs < 256 && rs / 16 == run && rs % 16 == size
  {
    run * 16 + size
  }

  ghost predicate DcTable(ht: Table, d: Dht) {
    Matches(ht, d) && forall size: nat | size <= 11 :: ht(size).len > 0
  }

  // Quantized coefficients of 8-bit baseline images
  predicate BlockInRange(du: seq<int>, pred: int) {
    |du| == 64 && -2047 <= du[0] - pred <= 2047 && SmallFrom(du, 1)
  }

  // -------------------------------------------------------------- reading them back

  lemma ReadValueAt(bits: seq<bit>, pos: nat, v: int)
    requires v != 0 && At(bits, pos, ValueBits(v))
    ensures Category(v) > 0
    ensures ReadMsb(bits, pos, Category(v), 0) == Got(ExtraValue(v), pos + |ValueBits(v)|)
    ensures Extend(ExtraValue(v), Category(v)) == v
  {
    hide At, BitLength, Extend, ReadMsb, MsbBits;
    ExtendUndoes(v);
    ReadMsbAt(bits, pos, ExtraValue(v), Category(v));
  }

  lemma DcCategory(v: int)
    requires -2047 <= v <= 2047 && v != 0
    ensures 1 <= Category(v) <= 11
  {
    hide BitLength, Pow2;
    Pow2Values();
    BitLengthBounds(Abs(v));
    if Category(v) > 11 {
      Pow2Monotone(11, Category(v) - 1);
    }
  }

  lemma ReadDcAt(bits: seq<bit>, pos: nat, diff: int, ht: Table, d: Dht)
    requires DcTable(ht, d) && -2047 <= diff <= 2047 && At(bits, pos, DcBits(diff, ht))
    ensures ReadDc(bits, pos, d) == Got(diff, pos + |DcBits(diff, ht)|)
  {
    hide At, ReadCode, ReadMsb, Matches, CodeBits, ValueBits, Category, Extend;
    if diff == 0 {
      ReadCodeAt(bits, pos, ht, d, 0);
    } else {
      DcCategory(diff);
      var t := Category(diff);
      AtSplit(bits, pos, CodeBits(ht(t)), ValueBits(diff));
      ReadCodeAt(bits, pos, ht, d, t);
      ReadValueAt(bits, pos + ht(t).len, diff);
    }
  }

  lemma ZerosAdd(m: nat, n: nat)
    ensures Zeros(m) + Zeros(n) == Zeros(m + n)
  {
  }

  lemma {:induction false} ReadZrlAt(bits: seq<bit>, pos: nat, ht: Table, d: Dht, zz: seq<int>, n: nat)
    requires AcTable(ht, d) && |zz| + 16 * n <= 63 && At(bits, pos, ZrlBits(n, ht))
    ensures ReadAc(bits, pos, d, zz) == ReadAc(bits, pos + |ZrlBits(n, ht)|, d, zz + Zeros(16 * n))
    decreases n
  {
    hide At, ReadCode, ReadMsb, Matches, CodeBits, Zeros;
    if n == 0 {
      assert zz + Zeros(0) == zz;
    } else {
      var zz' := zz + Zeros(16);
      AtSplit(bits, pos, CodeBits(ht(0xF0)), ZrlBits(n - 1, ht));
      ReadCodeAt(bits, pos, ht, d, 0xF0);
      ReadZrlAt(bits, pos + ht(0xF0).len, ht, d, zz', n - 1);
      ZerosAdd(16, 16 * (n - 1));
      assert zz' + Zeros(16 * (n - 1)) == zz + Zeros(16 * n);
    }
  }

  lemma ReadCoefficientAt(bits: seq<bit>, pos: nat, ht: Table, d: Dht, zz: seq<int>, run: nat, v: int)
    requires AcTable(ht, d) && |zz| + run <= 63 && v != 0 && -1023 <= v <= 1023 && Category(v) <= 10
    requires At(bits, pos, CoefficientBits(run, v, ht))
    ensures ReadAc(bits, pos, d, zz) == ReadAc(bits, pos + |CoefficientBits(run, v, ht)|, d, zz + Zeros(run) + [v])
  {
    hide At, ReadCode, ReadMsb, Matches, CodeBits, ValueBits, Zeros, ZrlBits, Category, Extend;
    var n, r, size := run / 16, run % 16, Category(v);
    var zrl, code := ZrlBits(n, ht), CodeBits(ht(RunSize(r, size)));
    AtSplit(bits, pos, zrl, code + ValueBits(v));
    AtSplit(bits, pos + |zrl|, code, ValueBits(v));
    ReadZrlAt(bits, pos, ht, d, zz, n);
    var p, zz' := pos + |zrl|, zz + Zeros(16 * n);
    ReadValueAt(bits, p + |code|, v);
    ReadCodeAt(bits, p, ht, d, RunSize(r, size));
    ZerosAdd(16 * n, r);
    assert zz' + Zeros(r) + [v] == zz + Zeros(run) + [v];
  }

  // The coefficients from k on are read as they were.
  lemma {:induction false} ReadAcAt(bits: seq<bit>, pos: nat, ht: Table, d: Dht, du: seq<int>, k: nat)
    requires AcTable(ht, d) && k <= |du| == 64 && SmallFrom(du, k) && pos <= |bits| && At(bits, pos, AcBits(du, k, ht))
    ensures ReadAc(bits, pos, d, du[..k]) == Got(du, pos + |AcBits(du, k, ht)|)
    decreases 64 - k
  {
    hide At, ReadCode, ReadMsb, Matches, CodeBits, Zeros, CoefficientBits, Category;
    var run := ZeroRun(du, k);
    if k == 64 {
      assert du[..64] == du;
    } else if k + run == 64 {
      ReadCodeAt(bits, pos, ht, d, 0);
      assert du[..k] + Zeros(64 - k) == du;
    } else {
      var v := du[k + run];
      SmallCategory(v);
      var head := CoefficientBits(run, v, ht);
      AtSplit(bits, pos, head, AcBits(du, k + run + 1, ht));
      ReadCoefficientAt(bits, pos, ht, d, du[..k], run, v);
      assert du[..k] + Zeros(run) + [v] == du[..k + run + 1];
      AtInside(bits, pos + |head|, AcBits(du, k + run + 1, ht));
      ReadAcAt(bits, pos + |head|, ht, d, du, k + run + 1);
    }
  }

  lemma AtInside(bits: seq<bit>, pos: nat, s: seq<bit>)
    requires At(bits, pos, s)
    ensures pos <= |bits|
  {
  }

  function BlockBits(du: seq<int>, pred: int, dc: Table, ac: Table): seq<bit>
    requires BlockInRange(du, pred)
  {
    DcBits(du[0] - pred, dc) + AcBits(du, 1, ac)
  }

  // A block in range is read back exactly.
  lemma ReadBlockAt(bits: seq<bit>, pos: nat, du: seq<int>, pred: int, dc: Table, ac: Table, dcd: Dht, acd: Dht)
    requires BlockInRange(du, pred) && DcTable(dc, dcd) && AcTable(ac, acd) && At(bits, pos, BlockBits(du, pred, dc, ac))
    ensures ReadBlock(bits, pos, dcd, acd, pred) == Got(du, pos + |BlockBits(du, pred, dc, ac)|)
  {
    hide At, ReadDc, ReadAc, DcTable, AcTable, DcBits, AcBits;
    var b, a := DcBits(du[0] - pred, dc), AcBits(du, 1, ac);
    AtSplit(bits, pos, b, a);
    ReadDcAt(bits, pos, du[0] - pred, dc, dcd);
    AtInside(bits, pos + |b|, a);
    assert [du[0]] == du[..1];
    ReadAcAt(bits, pos + |b|, ac, acd, du, 1);
  }
}
