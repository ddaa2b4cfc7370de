/** Bits, bytes and the bitwise operations of C on non-negative integers.

    A bit string is a `seq<bit>`.  Bytes carry their bits least significant
    first, as section 3.1.1 of RFC 1951 prescribes for DEFLATE. */
module Bits {

  type bit = x: int | 0 <= x <= 1

  type byte = x: int | 0 <= x < 256

  function Pow2(n: nat): (p: nat)
    ensures p >= 1
  {
    if n == 0 then 1 else 2 * Pow2(n - 1)
  }

  lemma {:induction false} Pow2Add(m: nat, n: nat)
    ensures Pow2(m + n) == Pow2(m) * Pow2(n)
  {
    if m == 0 {
    } else {
      Pow2Add(m - 1, n);
    }
  }

  lemma {:induction false} Pow2Monotone(m: nat, n: nat)
    requires m <= n
    ensures Pow2(m) <= Pow2(n)
  {
    if m == n {
    } else {
      Pow2Monotone(m, n - 1);
    }
  }

  lemma Pow2Values()
    ensures Pow2(0) == 1 && Pow2(1) == 2 && Pow2(2) == 4 && Pow2(3) == 8 && Pow2(4) == 16
    ensures Pow2(5) == 32 && Pow2(6) == 64 && Pow2(7) == 128 && Pow2(8) == 256 && Pow2(9) == 512
    ensures Pow2(10) == 1024 && Pow2(11) == 2048 && Pow2(12) == 4096 && Pow2(13) == 8192
    ensures Pow2(14) == 16384 && Pow2(15) == 32768 && Pow2(16) == 65536
    ensures Pow2(24) == 0x100_0000 && Pow2(32) == 0x1_0000_0000
  {
    assert Pow2(4) == 16;
    assert Pow2(8) == 256;
    assert Pow2(12) == 4096;
    assert Pow2(16) == 65536;
    Pow2Add(16, 8);
    Pow2Add(16, 16);
  }

  // The n low bits of v, least significant first
  function LsbBits(v: nat, n: nat): (s: seq<bit>)
    ensures |s| == n
  {
    if n == 0 then [] else [v % 2] + LsbBits(v / 2, n - 1)
  }

  // The n low bits of v, most significant first
  function MsbBits(v: nat, n: nat): (s: seq<bit>)
    ensures |s| == n
  {
    if n == 0 then [] else MsbBits(v / 2, n - 1) + [v % 2]
  }

  // The number whose bits are s, least significant first
  function LsbValue(s: seq<bit>): (v: nat)
    ensures v < Pow2(|s|)
  {
    if s == [] then 0 else s[0] + 2 * LsbValue(s[1..])
  }

  lemma {:induction false} LsbValueOfBits(v: nat, n: nat)
    requires v < Pow2(n)
    ensures LsbValue(LsbBits(v, n)) == v
  {
    if n == 0 {
    } else {
      LsbValueOfBits(v / 2, n - 1);
      assert LsbBits(v, n)[1..] == LsbBits(v / 2, n - 1);
    }
  }

  // C's `a | b` on non-negative integers
  function Or(a: nat, b: nat): nat
    decreases a + b
  {
    if a == 0 && b == 0 then 0
    else (if a % 2 == 1 || b % 2 == 1 then 1 else 0) + 2 * Or(a / 2, b / 2)
  }

  // Or-ing in bits above the ones already there is addition.
  lemma {:induction false} OrDisjoint(a: nat, b: nat, k: nat)
    requires a < Pow2(k)
    ensures Or(a, b * Pow2(k)) == a + b * Pow2(k)
  {
    if k == 0 {
      OrZero(b);
    } else if a == 0 && b * Pow2(k) == 0 {
    } else {
      var p := Pow2(k - 1);
      assert b * Pow2(k) == 2 * (b * p);
      OrDisjoint(a / 2, b, k - 1);
    }
  }

  lemma {:induction false} OrZero(b: nat)
    ensures Or(0, b) == b
  {
    if b == 0 {
    } else {
      OrZero(b / 2);
    }
  }

  lemma {:induction false} OrCommutes(a: nat, b: nat)
    ensures Or(a, b) == Or(b, a)
    decreases a + b
  {
    if a == 0 && b == 0 {
    } else {
      OrCommutes(a / 2, b / 2);
    }
  }

  // Appending c low bits above the k low bits of a
  lemma {:induction false} LsbBitsAppend(a: nat, b: nat, k: nat, n: nat)
    requires a < Pow2(k)
    ensures LsbBits(a + b * Pow2(k), k + n) == LsbBits(a, k) + LsbBits(b, n)
  {
    if k == 0 {
    } else {
      var p := Pow2(k - 1);
      assert b * Pow2(k) == 2 * (b * p);
      var v := a + b * Pow2(k);
      assert v == a + 2 * (b * p);
      assert v % 2 == a % 2 && v / 2 == a / 2 + b * p;
      LsbBitsAppend(a / 2, b, k - 1, n);
    }
  }

  // Splitting off the low byte
  lemma LsbBitsSplitByte(v: nat, n: nat)
    requires n >= 8
    ensures LsbBits(v, n) == LsbBits(v % 256, 8) + LsbBits(v / 256, n - 8)
  {
    hide LsbBits, Pow2;
    Pow2Values();
    LsbBitsAppend(v % 256, v / 256, 8, n - 8);
  }

  // The bits of a byte string, as section 3.1.1 of RFC 1951 orders them
  function BytesBits(s: seq<byte>): (r: seq<bit>)
    ensures |r| == 8 * |s|
  {
    if s == [] then [] else BytesBits(s[..|s| - 1]) + LsbBits(s[|s| - 1], 8)
  }

  lemma {:induction false} BytesBitsConcat(s: seq<byte>, t: seq<byte>)
    ensures BytesBits(s + t) == BytesBits(s) + BytesBits(t)
  {
    hide LsbBits;
    if t == [] {
      assert s + t == s;
    } else {
      var t', b := t[..|t| - 1], t[|t| - 1];
      BytesBitsConcat(s, t');
      BytesBitsPush(s + t', b);
      assert (s + t') + [b] == s + t;
      assert BytesBits(t) == BytesBits(t') + LsbBits(b, 8);
    }
  }

  lemma BytesBitsPush(s: seq<byte>, b: byte)
    ensures BytesBits(s + [b]) == BytesBits(s) + LsbBits(b, 8)
  {
    assert (s + [b])[..|s + [b]| - 1] == s;
  }

  lemma ConcatAssoc(r: seq<bit>, s: seq<bit>, t: seq<bit>)
    ensures (r + s) + t == r + (s + t)
  {
  }

  // s occurs in bits at position pos
  ghost predicate At(bits: seq<bit>, pos: nat, s: seq<bit>) {
    pos + |s| <= |bits| && bits[pos..pos + |s|] == s
  }

  lemma AtSplit(bits: seq<bit>, pos: nat, s: seq<bit>, t: seq<bit>)
    ensures At(bits, pos, s + t) <==> At(bits, pos, s) && At(bits, pos + |s|, t)
  {
    if At(bits, pos, s + t) {
      assert bits[pos..pos + |s|] == (s + t)[..|s|];
      assert bits[pos + |s|..pos + |s| + |t|] == (s + t)[|s|..];
    }
    if At(bits, pos, s) && At(bits, pos + |s|, t) {
      assert bits[pos..pos + |s + t|] == s + t;
    }
  }

  // ------------------------------------------------------------------ bit readers

  // The value read and the position behind it, or failure
  datatype Read<+T> = Fail | Got(value: T, pos: nat)

  // n bits, most significant first, appended to the bits read so far
  function ReadMsb(bits: seq<bit>, pos: nat, n: nat, sofar: nat): (r: Read<nat>)
    ensures r.Got? ==> r.pos == pos + n <= |bits|
    decreases n
  {
    if n == 0 then (if pos <= |bits| then Got(sofar, pos) else Fail)
    else if pos >= |bits| then Fail
    else ReadMsb(bits, pos + 1, n - 1, 2 * sofar + bits[pos])
  }

  // v without its k low bits
  function Shr(v: nat, k: nat): nat {
    if k == 0 then v else Shr(v / 2, k - 1)
  }

  lemma {:induction false} ShrStep(v: nat, k: nat)
    ensures Shr(v, k) == 2 * Shr(v, k + 1) + Shr(v, k) % 2
  {
    if k == 0 {
      assert Shr(v, 1) == Shr(v / 2, 0);
    } else {
      ShrStep(v / 2, k - 1);
    }
  }

  lemma {:induction false} MsbBit(v: nat, n: nat, i: nat)
    requires i < n
    ensures MsbBits(v, n)[i] == Shr(v, n - 1 - i) % 2
  {
    if i == n - 1 {
    } else {
      MsbBit(v / 2, n - 1, i);
    }
  }

  lemma {:induction false} ShrZero(v: nat, n: nat)
    requires v < Pow2(n)
    ensures Shr(v, n) == 0
  {
    if n == 0 {
    } else {
      ShrZero(v / 2, n - 1);
    }
  }

  lemma {:induction false} ReadMsbFrom(bits: seq<bit>, pos: nat, v: nat, n: nat, k: nat)
    requires k <= n && At(bits, pos, MsbBits(v, n))
    ensures ReadMsb(bits, pos + k, n - k, Shr(v, n - k)) == Got(v, pos + n)
    decreases n - k
  {
    if k == n {
    } else {
      ReadMsbFrom(bits, pos, v, n, k + 1);
      MsbBitAt(bits, pos, v, n, k);
    }
  }

  lemma ReadMsbAt(bits: seq<bit>, pos: nat, v: nat, n: nat)
    requires v < Pow2(n) && At(bits, pos, MsbBits(v, n))
    ensures ReadMsb(bits, pos, n, 0) == Got(v, pos + n)
  {
    ShrZero(v, n);
    ReadMsbFrom(bits, pos, v, n, 0);
  }

  lemma MsbBitAt(bits: seq<bit>, pos: nat, v: nat, n: nat, k: nat)
    requires k < n && At(bits, pos, MsbBits(v, n))
    ensures pos + k < |bits| && Shr(v, n - 1 - k) == 2 * Shr(v, n - k) + bits[pos + k]
  {
    MsbBit(v, n, k);
    assert bits[pos + k] == bits[pos..pos + n][k];
    ShrStep(v, n - 1 - k);
  }

  // Appending n low bits below the m bits of a
  lemma {:induction false} MsbBitsAppend(a: nat, b: nat, m: nat, n: nat)
    requires b < Pow2(n)
    ensures MsbBits(a * Pow2(n) + b, m + n) == MsbBits(a, m) + MsbBits(b, n)
  {
    if n == 0 {
    } else {
      var q := a * Pow2(n - 1);
      assert a * Pow2(n) == 2 * q;
      var v := 2 * q + b;
      assert v / 2 == q + b / 2 && v % 2 == b % 2;
      MsbBitsAppend(a, b / 2, m, n - 1);
    }
  }
}
