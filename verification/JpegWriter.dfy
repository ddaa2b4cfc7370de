/** The entropy coder of stb_image_write.h: `stbiw__jpg_writeBits`,
    `stbiw__jpg_calcBits` and the coding half of `stbiw__jpg_processDU`. */
module JpegWriter {
  import opened Bits
  import opened Jpeg
  import opened Options

  // --------------------------------------------------------------- byte stuffing

  // The bits of a byte string, most significant first
  function MsbBytes(s: seq<byte>): (r: seq<bit>)
    ensures |r| == 8 * |s|
  {
    if s == [] then [] else MsbBytes(s[..|s| - 1]) + MsbBits(s[|s| - 1], 8)
  }

  lemma MsbBytesPush(s: seq<byte>, b: byte)
    ensures MsbBytes(s + [b]) == MsbBytes(s) + MsbBits(b, 8)
  {
    assert (s + [b])[..|s + [b]| - 1] == s;
  }

  // A zero byte behind every 0xFF (section F.1.2.3)
  function Stuff(s: seq<byte>): seq<byte> {
    if s == [] then [] else Stuff(s[..|s| - 1]) + StuffByte(s[|s| - 1])
  }

  function StuffByte(b: byte): seq<byte> {
    if b == 0xFF then [0xFF, 0] else [b]
  }

  lemma StuffPush(s: seq<byte>, b: byte)
    ensures Stuff(s + [b]) == Stuff(s) + StuffByte(b)
  {
    assert (s + [b])[..|s + [b]| - 1] == s;
  }

  // The bytes of an entropy-coded segment and what follows it: 0xFF 0 stands
  // for 0xFF, and 0xFF with anything else is a marker.
  function Unstuff(s: seq<byte>): (seq<byte>, seq<byte>) {
    if s == [] then ([], [])
    else if s[0] != 0xFF then
      var (data, rest) := Unstuff(s[1..]);
      ([s[0]] + data, rest)
    else if |s| >= 2 && s[1] == 0 then
      var (data, rest) := Unstuff(s[2..]);
      ([0xFF] + data, rest)
    else ([], s)
  }

  predicate IsMarker(s: seq<byte>) {
    |s| >= 2 && s[0] == 0xFF && s[1] != 0
  }

  lemma {:induction false} StuffFront(b: byte, s: seq<byte>)
    ensures Stuff([b] + s) == StuffByte(b) + Stuff(s)
    decreases |s|
  {
    hide StuffByte;
    if s == [] {
      assert [b] + s == [] + [b];
      StuffPush([], b);
    } else {
      var front, last := s[..|s| - 1], s[|s| - 1];
      StuffFront(b, front);
      StuffPush([b] + front, last);
      assert ([b] + front) + [last] == [b] + s;
    }
  }

  lemma UnstuffByte(b: byte, t: seq<byte>)
    requires Unstuff(t).1 != []
    ensures Unstuff(StuffByte(b) + t) == ([b] + Unstuff(t).0, Unstuff(t).1)
  {
    var s := StuffByte(b) + t;
    assert s[|StuffByte(b)|..] == t;
  }

  lemma UnstuffMarker(rest: seq<byte>)
    requires IsMarker(rest)
    ensures Unstuff(rest) == ([], rest)
  {
  }

  lemma BytesAssoc(r: seq<byte>, s: seq<byte>, t: seq<byte>)
    ensures (r + s) + t == r + (s + t)
  {
  }

  // No marker arises inside the data, so a reader finds where it ends.
  lemma {:induction false} UnstuffStuffed(s: seq<byte>, rest: seq<byte>)
    requires IsMarker(rest)
    ensures Unstuff(Stuff(s) + rest) == (s, rest)
    decreases |s|
  {
    hide StuffByte, Unstuff;
    if s == [] {
      UnstuffMarker(rest);
      assert Stuff(s) + rest == rest;
    } else {
      var b, tail := s[0], s[1..];
      assert s == [b] + tail;
      StuffFront(b, tail);
      UnstuffStuffed(tail, rest);
      UnstuffByte(b, Stuff(tail) + rest);
      BytesAssoc(StuffByte(b), Stuff(tail), rest);
    }
  }

  // ------------------------------------------------------------------- bit output

  const WORD: nat := 0x1_0000_0000

  // bitBuf holds the pending bits p at the top of its low 24 bits; what lies
  // above is left over from bytes already written.
  ghost predicate Holds(bitBuf: nat, bitCnt: nat, p: nat) {
    bitBuf < WORD && bitCnt <= 24 && p < Pow2(bitCnt) && bitBuf % 0x100_0000 == p * Pow2(24 - bitCnt)
  }

  lemma Scale(k: nat)
    requires k <= 24
    ensures Pow2(k) * Pow2(24 - k) == 0x100_0000
  {
    hide Pow2;
    Pow2Add(k, 24 - k);
    Pow2Values();
  }

  // The parts of a buffer: u low bits free, p pending above them, g left over
  lemma Parts(bitBuf: nat, bitCnt: nat, p: nat) returns (g: nat, u: nat)
    requires Holds(bitBuf, bitCnt, p)
    ensures u == Pow2(24 - bitCnt) && bitBuf == g * 0x100_0000 + p * u
    ensures g == bitBuf / 0x100_0000 < 256 && Pow2(bitCnt) * u == 0x100_0000
    ensures bitBuf == (g * Pow2(bitCnt) + p) * u
    ensures (p + 1) * u <= 0x100_0000
  {
    hide Pow2;
    Scale(bitCnt);
    g, u := bitBuf / 0x100_0000, Pow2(24 - bitCnt);
    Distribute(g, Pow2(bitCnt), p, u);
    MulLess(p + 1, Pow2(bitCnt), u);
  }

  lemma Distribute(g: nat, q: nat, p: nat, u: nat)
    ensures (g * q + p) * u == g * (q * u) + p * u
  {
  }

  lemma MulLess(a: nat, b: nat, u: nat)
    requires a <= b
    ensures a * u <= b * u
  {
  }

  // A code word shifted below the pending bits fits there.
  lemma CodeFits(code: nat, n: nat, free: nat)
    requires code < Pow2(n) && n <= free
    ensures Pow2(free) == Pow2(n) * Pow2(free - n)
    ensures code * Pow2(free - n) < Pow2(free)
  {
    hide Pow2;
    Pow2Add(n, free - n);
    MulLess(code + 1, Pow2(n), Pow2(free - n));
    Positive(free - n);
  }

  lemma OrIsSum(bitBuf: nat, bitCnt: nat, p: nat, x: nat)
    requires Holds(bitBuf, bitCnt, p) && x < Pow2(24 - bitCnt)
    ensures Or(bitBuf, x) == bitBuf + x
  {
    hide Pow2, Or;
    var g, u := Parts(bitBuf, bitCnt, p);
    OrCommutes(bitBuf, x);
    OrDisjoint(x, g * Pow2(bitCnt) + p, 24 - bitCnt);
  }

  lemma SumHolds(bitBuf: nat, bitCnt: nat, p: nat, code: nat, n: nat)
    requires Holds(bitBuf, bitCnt, p) && bitCnt + n <= 24 && code < Pow2(n)
    ensures Holds(bitBuf + code * Pow2(24 - bitCnt - n), bitCnt + n, p * Pow2(n) + code)
  {
    hide Pow2;
    var g, u := Parts(bitBuf, bitCnt, p);
    var w, q := Pow2(24 - bitCnt - n), Pow2(n);
    CodeFits(code, n, 24 - bitCnt);
    Distribute(p, q, code, w);
    PendingFits(p, bitCnt, code, n);
    ModOf(g, p * u + code * w);
  }

  lemma PendingFits(p: nat, bitCnt: nat, code: nat, n: nat)
    requires p < Pow2(bitCnt) && code < Pow2(n)
    ensures p * Pow2(n) + code < Pow2(bitCnt + n)
  {
    hide Pow2;
    Pow2Add(bitCnt, n);
    MulLess(p + 1, Pow2(bitCnt), Pow2(n));
  }

  // Or-ing a code word below the pending bits appends it.
  lemma OrAppends(bitBuf: nat, bitCnt: nat, p: nat, code: nat, n: nat)
    requires Holds(bitBuf, bitCnt, p) && bitCnt + n <= 24 && code < Pow2(n)
    ensures Holds(Or(bitBuf, code * Pow2(24 - (bitCnt + n))), bitCnt + n, p * Pow2(n) + code)
  {
    hide Pow2, Or, Holds;
    CodeFits(code, n, 24 - bitCnt);
    OrIsSum(bitBuf, bitCnt, p, code * Pow2(24 - bitCnt - n));
    SumHolds(bitBuf, bitCnt, p, code, n);
  }

  lemma Positive(n: nat)
    ensures Pow2(n) >= 1
  {
  }

  lemma ModOf(g: nat, r: nat)
    requires r < 0x100_0000 && g < 256
    ensures (g * 0x100_0000 + r) % 0x100_0000 == r && g * 0x100_0000 + r < WORD
  {
  }

  // The top pending byte, and the buffer after shifting it out
  lemma ShiftOut(bitBuf: nat, bitCnt: nat, p: nat) returns (b: byte, p': nat)
    requires Holds(bitBuf, bitCnt, p) && bitCnt >= 8
    ensures b == bitBuf / 0x1_0000 % 256 && Holds(bitBuf * 256 % WORD, bitCnt - 8, p')
    ensures MsbBits(p, bitCnt) == MsbBits(b, 8) + MsbBits(p', bitCnt - 8)
  {
    hide Pow2, MsbBits;
    var m := bitCnt - 8;
    var t;
    t, p' := TopByte(p, m);
    MsbBitsAppend(t, p', 8, m);
    b := t;
    ShiftHolds(bitBuf, m, p, t, p');
  }

  lemma TopByte(p: nat, m: nat) returns (t: nat, r: nat)
    requires p < Pow2(m + 8)
    ensures t < 256 && r < Pow2(m) && p == t * Pow2(m) + r
  {
    hide Pow2;
    Positive(m);
    Pow2Values();
    Pow2Add(m, 8);
    t, r := p / Pow2(m), p % Pow2(m);
    DivMod(p, Pow2(m));
    QuotientBound(p, Pow2(m), t);
  }

  lemma ShiftHolds(bitBuf: nat, m: nat, p: nat, t: nat, r: nat)
    requires m <= 16 && t < 256 && r < Pow2(m) && p == t * Pow2(m) + r
    requires Holds(bitBuf, m + 8, p)
    ensures t == bitBuf / 0x1_0000 % 256 && Holds(bitBuf * 256 % WORD, m, r)
  {
    hide Pow2, Holds;
    var g, x := ShiftParts(bitBuf, m, p, t, r);
    ByteAt(g, t, x);
    HoldsScaled(bitBuf * 256 % WORD, m, r, x);
  }

  lemma ShiftParts(bitBuf: nat, m: nat, p: nat, t: nat, r: nat) returns (g: nat, x: nat)
    requires m <= 16 && t < 256 && r < Pow2(m) && p == t * Pow2(m) + r
    requires Holds(bitBuf, m + 8, p)
    ensures g < 256 && x < 0x1_0000 && bitBuf == g * 0x100_0000 + (t * 0x1_0000 + x)
    ensures r * Pow2(24 - m) == 256 * x
  {
    hide Pow2, Holds;
    var u;
    g, u := Parts(bitBuf, m + 8, p);
    ByteScale(m, u);
    x := r * u;
    ByteProduct(p, t, Pow2(m), r, u, Pow2(24 - m));
  }

  lemma HoldsScaled(b: nat, m: nat, r: nat, x: nat)
    requires b < WORD && m <= 16 && r < Pow2(m)
    requires r * Pow2(24 - m) == 256 * x && b % 0x100_0000 == 256 * x
    ensures Holds(b, m, r)
  {
    hide Pow2;
  }

  lemma ByteProduct(p: nat, t: nat, q: nat, r: nat, u: nat, w: nat)
    requires p == t * q + r && q * u == 0x1_0000 && r < q && u >= 1 && w == 256 * u
    ensures p * u == t * 0x1_0000 + r * u && r * u < 0x1_0000
    ensures r * w == 256 * (r * u)
  {
    Distribute(t, q, r, u);
    MulLess(r + 1, q, u);
  }

  lemma ByteScale(m: nat, u: nat)
    requires m <= 16 && u == Pow2(16 - m)
    ensures Pow2(m) * u == 0x1_0000 && Pow2(24 - m) == 256 * u && u >= 1
  {
    hide Pow2;
    Pow2Values();
    Pow2Add(m, 16 - m);
    Pow2Add(8, 16 - m);
    Positive(16 - m);
  }

  lemma DivMod(v: nat, d: nat)
    requires d > 0
    ensures 0 <= v % d < d && 0 <= v / d && v == v / d * d + v % d
  {
  }

  lemma QuotientBound(p: nat, q: nat, t: nat)
    requires p < q * 256 && t * q <= p && q > 0
    ensures t < 256
  {
    if t >= 256 {
      MulLess(256, t, q);
    }
  }

  lemma ByteAt(g: nat, t: nat, r: nat)
    requires g < 256 && t < 256 && r < 0x1_0000
    ensures var v := g * 0x100_0000 + (t * 0x1_0000 + r);
            v / 0x1_0000 % 256 == t && v * 256 % WORD % 0x100_0000 == 256 * r
  {
    var v := g * 0x100_0000 + (t * 0x1_0000 + r);
    assert v == (g * 256 + t) * 0x1_0000 + r;
    assert v / 0x1_0000 == g * 256 + t;
    assert v * 256 == g * WORD + (t * 0x100_0000 + 256 * r);
    assert v * 256 % WORD == t * 0x100_0000 + 256 * r;
  }

  // The output of the entropy coder with its bit buffer
  class BitSink {
    var written: seq<byte>
    var bitBuf: nat
    var bitCnt: nat
    ghost var raw: seq<byte>
    ghost var pending: nat

    ghost predicate Valid()
      reads this
    {
      bitCnt < 8 && Written()
    }

    ghost predicate Written()
      reads this
    {
      written == Stuff(raw) && Holds(bitBuf, bitCnt, pending)
    }

    // The bits written so far, those in the buffer last
    ghost function Bits(): seq<bit>
      reads this
    {
      MsbBytes(raw) + MsbBits(pending, bitCnt)
    }

    constructor ()
      ensures Valid() && Bits() == []
    {
      written, bitBuf, bitCnt, raw, pending := [], 0, 0, [], 0;
    }

    // stbiw__putc
    method PutC(c: byte)
      modifies this`written
      ensures written == old(written) + [c]
    {
      written := written + [c];
    }

    // Writes out the top byte of the buffer, stuffed.
    method PutByte()
      requires Written() && 8 <= bitCnt
      modifies this
      ensures Written() && bitCnt == old(bitCnt) - 8 && Bits() == old(Bits())
    {
      hide Stuff, Holds, MsbBytes, MsbBits;
      ghost var b, p := ShiftOut(bitBuf, bitCnt, pending);
      StuffPush(raw, b);
      MsbBytesPush(raw, b);
      ConcatAssoc(MsbBytes(raw), MsbBits(b, 8), MsbBits(p, bitCnt - 8));
      var c := bitBuf / 0x1_0000 % 256;
      PutC(c);
      if c == 255 {
        PutC(0);
      }
      bitBuf := bitBuf * 256 % WORD;
      bitCnt := bitCnt - 8;
      raw, pending := raw + [b], p;
    }

    // stbiw__jpg_writeBits
    method WriteBits(c: Code)
      requires Valid() && c.len <= 16 && c.bits < Pow2(c.len)
      modifies this
      ensures Valid() && Bits() == old(Bits()) + CodeBits(c)
    {
      hide Stuff, Holds, MsbBytes, MsbBits, Pow2, Or;
      OrAppends(bitBuf, bitCnt, pending, c.bits, c.len);
      MsbBitsAppend(pending, c.bits, bitCnt, c.len);
      ConcatAssoc(MsbBytes(raw), MsbBits(pending, bitCnt), CodeBits(c));
      ghost var p := pending * Pow2(c.len) + c.bits;
      bitCnt := bitCnt + c.len;
      bitBuf := Or(bitBuf, c.bits * Pow2(24 - bitCnt));
      pending := p;
      while bitCnt >= 8
        invariant Written() && Bits() == old(Bits()) + CodeBits(c)
        decreases bitCnt
      {
        PutByte();
      }
    }
  }

  // --------------------------------------------------------------------- encoding

  // stbiw__jpg_calcBits. It is called for values that are not zero; the masked value
  // goes into 16 bits.
  method CalcBits(val: int) returns (bits: Code)
    requires Abs(val) < 0x4000_0000
    ensures val == 0 ==> bits == Code(0, 1)
    ensures val != 0 ==> bits.len == Category(val) > 0 && bits.bits == ExtraValue(val) % 0x1_0000
    ensures 0 < Abs(val) < 0x1_0000 ==> bits.bits == ExtraValue(val) && CodeBits(bits) == ValueBits(val)
    ensures 0 < Abs(val) < 0x8000 ==> bits.len <= 15 && bits.bits < Pow2(bits.len)
  {
    hide Pow2, MsbBits, BitLength;
    var tmp := if val < 0 then -val else val;
    var v := if val < 0 then val - 1 else val;
    var len := 1;
    BitLengthHalf(tmp);
    while tmp / 2 != 0
      invariant tmp >= 0 && (tmp == 0 <==> val == 0) && len + BitLength(tmp / 2) == if val == 0 then 1 else Category(val)
      decreases tmp
    {
      tmp := tmp / 2;
      len := len + 1;
      BitLengthHalf(tmp);
    }
    BitLengthHalf(0);
    Positive(len);
    bits := Code(v % Pow2(len) % 0x1_0000, len);
    if val == 0 {
      Pow2Values();
    } else {
      MaskIsExtra(val, v);
      ExtraFits(val);
    }
  }

  lemma ExtraFits(val: int)
    requires val != 0
    ensures Category(val) > 0 && ExtraValue(val) < Pow2(Category(val))
    ensures Abs(val) < 0x1_0000 ==> ExtraValue(val) < 0x1_0000
    ensures Abs(val) < 0x8000 ==> Category(val) <= 15
  {
    hide BitLength, Pow2, Extend;
    ExtendUndoes(val);
    Pow2Values();
    if Abs(val) < 0x1_0000 {
      ShortCategory(val, 16);
      Pow2Monotone(Category(val), 16);
    }
    if Abs(val) < 0x8000 {
      ShortCategory(val, 15);
    }
  }

  lemma BitLengthHalf(n: nat)
    ensures BitLength(n) == if n == 0 then 0 else 1 + BitLength(n / 2)
  {
  }

  lemma ShortCategory(val: int, n: nat)
    requires Abs(val) < Pow2(n)
    ensures Category(val) <= n
  {
    hide BitLength, Pow2;
    BitLengthBounds(Abs(val));
    if Category(val) > n {
      Pow2Monotone(n, Category(val) - 1);
    }
  }

  // Masking with a power of two keeps the low bits of a negative number too.
  lemma MaskIsExtra(val: int, v: int)
    requires val != 0 && v == if val < 0 then val - 1 else val
    ensures v % Pow2(Category(val)) == ExtraValue(val)
  {
    hide BitLength, Pow2;
    BitLengthBounds(Abs(val));
    SmallMod(v, Pow2(Category(val)));
  }

  lemma SmallMod(v: int, m: int)
    requires m > 0 && -m <= v < m
    ensures v % m == if v < 0 then v + m else v
  {
  }

  // The position of the last non-zero coefficient, 0 when only the first can be
  method LastNonzero(du: seq<int>) returns (end0pos: nat)
    requires |du| == 64
    ensures end0pos < 64 && (end0pos > 0 ==> du[end0pos] != 0)
    ensures forall i | end0pos < i < 64 :: du[i] == 0
  {
    end0pos := 63;
    while end0pos > 0 && du[end0pos] == 0
      invariant end0pos < 64 && forall i | end0pos < i < 64 :: du[i] == 0
    {
      end0pos := end0pos - 1;
    }
  }

  // The coding half of stbiw__jpg_processDU
  method ProcessDu(sink: BitSink, du: seq<int>, pred: int, dc: Table, ac: Table, ghost dcd: Dht, ghost acd: Dht)
    returns (dcValue: int)
    requires sink.Valid() && BlockInRange(du, pred) && DcTable(dc, dcd) && AcTable(ac, acd)
    modifies sink
    ensures sink.Valid() && dcValue == du[0]
    ensures sink.Bits() == old(sink.Bits()) + BlockBits(du, pred, dc, ac)
  {
    hide BitSink.Valid, BitSink.Bits, DcBits, AcBits, DcTable, AcTable;
    ConcatAssoc(sink.Bits(), DcBits(du[0] - pred, dc), AcBits(du, 1, ac));
    EncodeDc(sink, du[0] - pred, dc, dcd);
    EncodeAc(sink, du, ac, acd);
    dcValue := du[0];
  }

  method EncodeDc(sink: BitSink, diff: int, ht: Table, ghost d: Dht)
    requires sink.Valid() && -2047 <= diff <= 2047 && DcTable(ht, d)
    modifies sink
    ensures sink.Valid() && sink.Bits() == old(sink.Bits()) + DcBits(diff, ht)
  {
    hide BitSink.Valid, BitSink.Bits, CodeBits, ValueBits, Pow2, Category, ExtraValue;
    if diff == 0 {
      assert CodeOf(ht(0), 0, d);
      sink.WriteBits(ht(0));
    } else {
      DcCategory(diff);
      var bits := CalcBits(diff);
      assert CodeOf(ht(bits.len), bits.len, d);
      ConcatAssoc(sink.Bits(), CodeBits(ht(bits.len)), ValueBits(diff));
      sink.WriteBits(ht(bits.len));
      sink.WriteBits(bits);
    }
  }

  lemma {:induction false} ZeroRunIs(du: seq<int>, k: nat, r: nat)
    requires k + r <= |du| && (forall i | k <= i < k + r :: du[i] == 0) && (k + r < |du| ==> du[k + r] != 0)
    ensures ZeroRun(du, k) == r
    decreases r
  {
    if r > 0 {
      ZeroRunIs(du, k + 1, r - 1);
    }
  }

  // The coefficient at i, behind zeros from k on
  lemma AcStep(du: seq<int>, k: nat, i: nat, ht: Table)
    requires k <= i < |du| && SmallFrom(du, k) && du[i] != 0 && forall j | k <= j < i :: du[j] == 0
    ensures SmallFrom(du, i + 1) && Category(du[i]) <= 10
    ensures AcBits(du, k, ht) == CoefficientBits(i - k, du[i], ht) + AcBits(du, i + 1, ht)
  {
    hide CoefficientBits, Category;
    ZeroRunIs(du, k, i - k);
    SmallCategory(du[i]);
  }

  // Nothing but zeros from k on
  lemma AcEnd(du: seq<int>, k: nat, ht: Table)
    requires k <= |du| && SmallFrom(du, k) && forall j | k <= j < |du| :: du[j] == 0
    ensures AcBits(du, k, ht) == if k == |du| then [] else CodeBits(ht(0))
  {
    hide CoefficientBits;
    ZeroRunIs(du, k, |du| - k);
  }

  lemma {:induction false} ZrlOneMore(n: nat, ht: Table)
    ensures ZrlBits(n + 1, ht) == ZrlBits(n, ht) + CodeBits(ht(0xF0))
  {
    hide CodeBits;
    if n == 0 {
      assert ZrlBits(0, ht) == [];
      assert CodeBits(ht(0xF0)) + [] == [] + CodeBits(ht(0xF0));
    } else {
      ZrlOneMore(n - 1, ht);
    }
  }

  ghost predicate ValidCode(c: Code) {
    1 <= c.len <= 16 && c.bits < Pow2(c.len)
  }

  lemma AcCodes(ht: Table, d: Dht, run: nat, size: nat)
    requires AcTable(ht, d) && run < 16 && 1 <= size <= 10
    ensures ValidCode(ht(0)) && ValidCode(ht(0xF0)) && ValidCode(ht(RunSize(run, size)))
  {
    hide Dht.MinCode, Dht.ValPtr;
    assert CodeOf(ht(0), 0, d) && CodeOf(ht(0xF0), 0xF0, d);
    assert CodeOf(ht(RunSize(run, size)), RunSize(run, size), d);
  }

  // A coefficient that is not zero, behind nrzeroes zeros
  method EncodeCoefficient(sink: BitSink, nrzeroes: nat, v: int, ht: Table, ghost d: Dht)
    requires sink.Valid() && AcTable(ht, d) && v != 0 && -1023 <= v <= 1023 && Category(v) <= 10
    modifies sink
    ensures sink.Valid() && sink.Bits() == old(sink.Bits()) + CoefficientBits(nrzeroes, v, ht)
  {
    hide BitSink.Valid, BitSink.Bits, CodeBits, ValueBits, Pow2, Category, ExtraValue, AcTable;
    ghost var base := sink.Bits();
    var bits := CalcBits(v);
    AcCodes(ht, d, nrzeroes % 16, bits.len);
    NoZrl(base, ht);
    for nrmarker := 0 to nrzeroes / 16
      invariant sink.Valid() && sink.Bits() == base + ZrlBits(nrmarker, ht)
    {
      ZrlOneMore(nrmarker, ht);
      ConcatAssoc(base, ZrlBits(nrmarker, ht), CodeBits(ht(0xF0)));
      sink.WriteBits(ht(0xF0));
    }
    ghost var zrl, code := ZrlBits(nrzeroes / 16, ht), CodeBits(ht(RunSize(nrzeroes % 16, bits.len)));
    sink.WriteBits(ht(RunSize(nrzeroes % 16, bits.len)));
    sink.WriteBits(bits);
    ConcatAssoc(base, zrl, code);
    ConcatAssoc(base, zrl + code, ValueBits(v));
    ConcatAssoc(zrl, code, ValueBits(v));
  }

  lemma NoZrl(base: seq<bit>, ht: Table)
    ensures base + ZrlBits(0, ht) == base
  {
  }

  method EncodeAc(sink: BitSink, du: seq<int>, ht: Table, ghost d: Dht)
    requires sink.Valid() && |du| == 64 && SmallFrom(du, 1) && AcTable(ht, d)
    modifies sink
    ensures sink.Valid() && sink.Bits() == old(sink.Bits()) + AcBits(du, 1, ht)
  {
    hide BitSink.Valid, BitSink.Bits, CodeBits, AcTable, AcBits, CoefficientBits, ValidCode, Category;
    AcCodes(ht, d, 0, 1);
    var end0pos := LastNonzero(du);
    if end0pos == 0 {
      AcEnd(du, 1, ht);
      WriteCode(sink, ht(0));
      return;
    }
    ghost var base, done := sink.Bits(), [];
    assert base + done == base && done + AcBits(du, 1, ht) == AcBits(du, 1, ht);
    var i := 1;
    while i <= end0pos
      invariant i <= end0pos + 1 && sink.Valid() && SmallFrom(du, i)
      invariant sink.Bits() == base + done && done + AcBits(du, i, ht) == AcBits(du, 1, ht)
    {
      var startpos := i;
      while i <= end0pos && du[i] == 0
        invariant startpos <= i <= end0pos && forall j | startpos <= j < i :: du[j] == 0
      {
        i := i + 1;
      }
      AcStep(du, startpos, i, ht);
      ghost var more := CoefficientBits(i - startpos, du[i], ht);
      ConcatAssoc(done, more, AcBits(du, i + 1, ht));
      ConcatAssoc(base, done, more);
      EncodeCoefficient(sink, i - startpos, du[i], ht, d);
      done := done + more;
      i := i + 1;
    }
    AcEnd(du, i, ht);
    if end0pos != 63 {
      ConcatAssoc(base, done, CodeBits(ht(0)));
      WriteCode(sink, ht(0));
    } else {
      assert done + [] == done;
    }
  }

  method WriteCode(sink: BitSink, c: Code)
    requires sink.Valid() && ValidCode(c)
    modifies sink
    ensures sink.Valid() && sink.Bits() == old(sink.Bits()) + CodeBits(c)
  {
    sink.WriteBits(c);
  }

  // ------------------------------------------------------------------------ scans

  // The luminance tables, and those both chrominance components share
  datatype Tables = Tables(ydc: Table, yac: Table, uvdc: Table, uvac: Table)
  {
    function Dc(comp: nat): Table {
      if comp == 0 then ydc else uvdc
    }

    function Ac(comp: nat): Table {
      if comp == 0 then yac else uvac
    }
  }

  // The tables a decoder is told to use, for each of the three components
  datatype Spec = Spec(dc: seq<Dht>, ac: seq<Dht>)
  {
    predicate Valid() {
      |dc| == |ac| == 3 && forall c | 0 <= c < 3 :: dc[c].Valid() && ac[c].Valid()
    }
  }

  // Component 0 is luminance, components 1 and 2 are chrominance.
  ghost predicate Agree(t: Tables, d: Spec) {
    && d.Valid()
    && DcTable(t.ydc, d.dc[0]) && DcTable(t.uvdc, d.dc[1]) && DcTable(t.uvdc, d.dc[2])
    && AcTable(t.yac, d.ac[0]) && AcTable(t.uvac, d.ac[1]) && AcTable(t.uvac, d.ac[2])
  }

  // A block of component 0, 1 or 2, in zigzag order
  datatype Block = Block(comp: nat, du: seq<int>)

  // Every block is in range, given the last DC value of each component.
  predicate ScanInRange(blocks: seq<Block>, preds: seq<int>)
    requires |preds| == 3
  {
    blocks == [] ||
    (blocks[0].comp < 3 && BlockInRange(blocks[0].du, preds[blocks[0].comp])
     && ScanInRange(blocks[1..], preds[blocks[0].comp := blocks[0].du[0]]))
  }

  function ScanBits(blocks: seq<Block>, preds: seq<int>, t: Tables): seq<bit>
    requires |preds| == 3 && ScanInRange(blocks, preds)
  {
    if blocks == [] then []
    else
      var Block(comp, du) := blocks[0];
      BlockBits(du, preds[comp], t.Dc(comp), t.Ac(comp)) + ScanBits(blocks[1..], preds[comp := du[0]], t)
  }

  // The next block, of the given component
  function ReadComponent(bits: seq<bit>, pos: nat, comp: nat, pred: int, d: Spec): (r: Read<seq<int>>)
    requires comp < 3 && d.Valid()
    ensures r.Got? ==> |r.value| == 64
  {
    ReadBlock(bits, pos, d.dc[comp], d.ac[comp], pred)
  }

  // The blocks of the given components in turn
  function ReadScan(bits: seq<bit>, pos: nat, comps: seq<nat>, preds: seq<int>, d: Spec): Read<seq<Block>>
    requires |preds| == 3 && d.Valid()
    decreases |comps|
  {
    if comps == [] then Got([], pos)
    else if comps[0] >= 3 then Fail
    else
      match ReadComponent(bits, pos, comps[0], preds[comps[0]], d)
      case Fail => Fail
      case Got(du, p) =>
        match ReadScan(bits, p, comps[1..], preds[comps[0] := du[0]], d)
        case Fail => Fail
        case Got(rest, p') => Got([Block(comps[0], du)] + rest, p')
  }

  function Components(blocks: seq<Block>): seq<nat> {
    if blocks == [] then [] else [blocks[0].comp] + Components(blocks[1..])
  }

  lemma ReadComponentAt(bits: seq<bit>, pos: nat, comp: nat, du: seq<int>, pred: int, t: Tables, d: Spec)
    requires comp < 3 && BlockInRange(du, pred) && Agree(t, d) && At(bits, pos, BlockBits(du, pred, t.Dc(comp), t.Ac(comp)))
    ensures ReadComponent(bits, pos, comp, pred, d) == Got(du, pos + |BlockBits(du, pred, t.Dc(comp), t.Ac(comp))|)
  {
    hide At, BlockBits, ReadBlock, DcTable, AcTable;
    ReadBlockAt(bits, pos, du, pred, t.Dc(comp), t.Ac(comp), d.dc[comp], d.ac[comp]);
  }

  lemma ScanStep(blocks: seq<Block>, preds: seq<int>, t: Tables)
    requires |preds| == 3 && ScanInRange(blocks, preds) && blocks != []
    ensures var Block(comp, du) := blocks[0];
            var preds' := preds[comp := du[0]];
            ScanBits(blocks, preds, t) == BlockBits(du, preds[comp], t.Dc(comp), t.Ac(comp)) + ScanBits(blocks[1..], preds', t)
    ensures Components(blocks) == [blocks[0].comp] + Components(blocks[1..])
  {
    hide BlockBits;
  }

  lemma AgreeValid(t: Tables, d: Spec)
    requires Agree(t, d)
    ensures d.Valid()
  {
    hide DcTable, AcTable;
  }

  lemma ReadNoBlocks(bits: seq<bit>, pos: nat, preds: seq<int>, t: Tables, d: Spec)
    requires |preds| == 3 && d.Valid()
    ensures ReadScan(bits, pos, Components([]), preds, d) == Got([], pos) && ScanBits([], preds, t) == []
  {
  }

  lemma BlockSize(du: seq<int>, pred: int)
    requires BlockInRange(du, pred)
    ensures |du| == 64
  {
  }

  lemma ReadScanStep(bits: seq<bit>, pos: nat, b: Block, p: nat, comps: seq<nat>, preds: seq<int>, d: Spec)
    requires |preds| == 3 && d.Valid() && b.comp < 3 && |b.du| == 64
    requires ReadComponent(bits, pos, b.comp, preds[b.comp], d) == Got(b.du, p)
    ensures ReadScan(bits, pos, [b.comp] + comps, preds, d)
         == match ReadScan(bits, p, comps, preds[b.comp := b.du[0]], d)
            case Fail => Fail
            case Got(rest, p') => Got([b] + rest, p')
  {
    hide ReadComponent;
    assert ([b.comp] + comps)[1..] == comps;
  }

  lemma {:induction false} ReadScanAt(bits: seq<bit>, pos: nat, blocks: seq<Block>, preds: seq<int>, t: Tables, d: Spec)
    requires |preds| == 3 && ScanInRange(blocks, preds) && Agree(t, d) && At(bits, pos, ScanBits(blocks, preds, t))
    ensures ReadScan(bits, pos, Components(blocks), preds, d) == Got(blocks, pos + |ScanBits(blocks, preds, t)|)
    decreases |blocks|
  {
    hide At, BlockBits, ReadComponent, Agree, Spec.Valid, ScanBits, ReadScan, Components, BlockInRange;
    AgreeValid(t, d);
    if blocks == [] {
      ReadNoBlocks(bits, pos, preds, t, d);
    } else {
      BlockSize(blocks[0].du, preds[blocks[0].comp]);
      var Block(comp, du) := blocks[0];
      var preds' := preds[comp := du[0]];
      var block, rest := BlockBits(du, preds[comp], t.Dc(comp), t.Ac(comp)), ScanBits(blocks[1..], preds', t);
      ScanStep(blocks, preds, t);
      AtSplit(bits, pos, block, rest);
      ReadComponentAt(bits, pos, comp, du, preds[comp], t, d);
      ReadScanAt(bits, pos + |block|, blocks[1..], preds', t, d);
      ReadScanStep(bits, pos, Block(comp, du), pos + |block|, Components(blocks[1..]), preds, d);
      assert [Block(comp, du)] + blocks[1..] == blocks;
    }
  }

  // A scan and its EOI marker: the blocks, then fewer than 8 one-bits of fill
  function DecodeScan(s: seq<byte>, comps: seq<nat>, d: Spec): Option<seq<Block>>
    requires d.Valid()
  {
    var (raw, rest) := Unstuff(s);
    var bits := MsbBytes(raw);
    match ReadScan(bits, 0, comps, [0, 0, 0], d)
    case Fail => None
    case Got(blocks, pos) =>
      if pos <= |bits| < pos + 8 && (forall i | pos <= i < |bits| :: bits[i] == 1) && rest == [0xFF, 0xD9]
      then Some(blocks) else None
  }

  const FILL: Code := Code(0x7F, 7)

  lemma FillBits()
    ensures CodeBits(FILL) == [1, 1, 1, 1, 1, 1, 1] && FILL.bits < Pow2(7)
  {
    Pow2Values();
    assert MsbBits(0x7, 3) == [1, 1, 1];
    assert MsbBits(0x3F, 6) == [1, 1, 1, 1, 1, 1];
  }

  // The first written bytes of the bits and their fill decode to the blocks.
  lemma FilledDecodes(raw: seq<byte>, last: seq<bit>, blocks: seq<Block>, t: Tables, d: Spec)
    requires ScanInRange(blocks, [0, 0, 0]) && Agree(t, d) && |last| < 8
    requires MsbBytes(raw) + last == ScanBits(blocks, [0, 0, 0], t) + CodeBits(FILL)
    ensures DecodeScan(Stuff(raw) + [0xFF, 0xD9], Components(blocks), d) == Some(blocks)
  {
    hide MsbBytes, ScanBits, ReadScan, Unstuff, Stuff, CodeBits, ScanInRange, Agree;
    UnstuffStuffed(raw, [0xFF, 0xD9]);
    FillBits();
    var bits, scan := MsbBytes(raw), ScanBits(blocks, [0, 0, 0], t);
    var all := scan + CodeBits(FILL);
    assert bits == all[..|bits|];
    assert |scan| <= |bits| < |scan| + 8;
    assert bits[..|scan|] == scan;
    ReadScanAt(bits, 0, blocks, [0, 0, 0], t, d) by { assert bits[0..0 + |scan|] == scan; }
    forall i | |scan| <= i < |bits| ensures bits[i] == 1 {
      assert bits[i] == all[i] == CodeBits(FILL)[i - |scan|];
    }
  }

  lemma SinkParts(sink: BitSink)
    requires sink.Valid()
    ensures sink.bitCnt < 8 && sink.written == Stuff(sink.raw)
    ensures sink.Bits() == MsbBytes(sink.raw) + MsbBits(sink.pending, sink.bitCnt)
  {
  }
}
