/** `stbiw__write_hdr_scanline` from the RGBE bytes on, and a reader for
    Radiance scanlines. */
module Hdr {
  import opened Bits
  import opened Options
  import opened WriteContext

  // --------------------------------------------------------------------- reading

  function Repeat(b: byte, n: nat): (r: seq<byte>)
    ensures |r| == n && forall i | 0 <= i < n :: r[i] == b
  {
    seq(n, _ => b)
  }

  // n bytes of one component: counts above 128 are runs, the others dumps.
  function ReadPlane(s: seq<byte>, n: nat): Option<(seq<byte>, seq<byte>)>
    decreases n
  {
    if n == 0 then Some(([], s))
    else if s == [] || s[0] == 0 then None
    else
      var count := if s[0] > 128 then s[0] - 128 else s[0];
      var bytes := if s[0] > 128 then 1 else count;
      if count > n || |s| < 1 + bytes then None
      else
        var part := if s[0] > 128 then Repeat(s[1], count) else s[1..1 + count];
        match ReadPlane(s[1 + bytes..], n - count)
        case None => None
        case Some((rest, s')) => Some((part + rest, s'))
  }

  // The four components of a scanline in turn
  function ReadPlanes(s: seq<byte>, width: nat, k: nat): Option<(seq<seq<byte>>, seq<byte>)>
    decreases k
  {
    if k == 0 then Some(([], s))
    else
      match ReadPlane(s, width)
      case None => None
      case Some((plane, s')) =>
        match ReadPlanes(s', width, k - 1)
        case None => None
        case Some((rest, s'')) => Some(([plane] + rest, s''))
  }

  // The four components of pixels stored flat
  function ReadFlat(s: seq<byte>, width: nat): Option<(seq<seq<byte>>, seq<byte>)>
    decreases width
  {
    if width == 0 then Some(([[], [], [], []], s))
    else if |s| < 4 then None
    else
      match ReadFlat(s[4..], width - 1)
      case None => None
      case Some((p, s')) =>
        if |p| != 4 then None
        else Some(([[s[0]] + p[0], [s[1]] + p[1], [s[2]] + p[2], [s[3]] + p[3]], s'))
  }

  predicate IsPacked(width: nat) {
    8 <= width < 32768
  }

  // A scanline of the given width: short and long ones are flat.
  function ReadScanline(s: seq<byte>, width: nat): Option<(seq<seq<byte>>, seq<byte>)> {
    if !IsPacked(width) then ReadFlat(s, width)
    else if |s| < 4 || s[0] != 2 || s[1] != 2 || 256 * (s[2] as int) + s[3] as int != width then None
    else ReadPlanes(s[4..], width, 4)
  }

  // ----------------------------------------------------------------- packets written

  function Before(part: seq<byte>, r: Option<(seq<byte>, seq<byte>)>): Option<(seq<byte>, seq<byte>)> {
    match r case None => None case Some((more, s)) => Some((part + more, s))
  }

  // The bytes are packets of the part, whatever follows them.
  ghost predicate Packs(bytes: seq<byte>, part: seq<byte>) {
    forall rest: seq<byte>, n: nat :: ReadPlane(bytes + rest, |part| + n) == Before(part, ReadPlane(rest, n))
  }

  lemma PacksNothing()
    ensures Packs([], [])
  {
    hide ReadPlane;
    var none: seq<byte> := [];
    forall rest: seq<byte>, n: nat ensures ReadPlane(none + rest, |none| + n) == Before(none, ReadPlane(rest, n)) {
      assert none + rest == rest;
      match ReadPlane(rest, n)
      case None =>
      case Some((more, s)) => assert none + more == more;
    }
  }

  lemma PacksOn(a: seq<byte>, p: seq<byte>, b: seq<byte>, q: seq<byte>)
    requires Packs(a, p) && Packs(b, q)
    ensures Packs(a + b, p + q)
  {
    hide ReadPlane;
    forall rest: seq<byte>, n: nat
      ensures ReadPlane((a + b) + rest, |p + q| + n) == Before(p + q, ReadPlane(rest, n))
    {
      assert (a + b) + rest == a + (b + rest);
      assert ReadPlane(a + (b + rest), |p| + (|q| + n)) == Before(p, ReadPlane(b + rest, |q| + n));
      match ReadPlane(rest, n)
      case None =>
      case Some((more, s)) => assert (p + q) + more == p + (q + more);
    }
  }

  lemma DumpPacks(part: seq<byte>)
    requires 1 <= |part| <= 128
    ensures Packs([|part|] + part, part)
  {
    var bytes := [|part|] + part;
    forall rest: seq<byte>, n: nat ensures ReadPlane(bytes + rest, |part| + n) == Before(part, ReadPlane(rest, n)) {
      ReadDump(part, rest, n);
    }
  }

  lemma ReadDump(part: seq<byte>, rest: seq<byte>, n: nat)
    requires 1 <= |part| <= 128
    ensures ReadPlane([|part|] + part + rest, |part| + n) == Before(part, ReadPlane(rest, n))
  {
    var s := [|part|] + part + rest;
    assert s[1..1 + |part|] == part && s[1 + |part|..] == rest;
  }

  lemma RunPacks(b: byte, len: nat)
    requires 1 <= len <= 127
    ensures Packs([len + 128, b], Repeat(b, len))
  {
    hide Repeat;
    var bytes, part := [len + 128, b], Repeat(b, len);
    forall rest: seq<byte>, n: nat ensures ReadPlane(bytes + rest, |part| + n) == Before(part, ReadPlane(rest, n)) {
      ReadRun(b, len, rest, n);
    }
  }

  lemma ReadRun(b: byte, len: nat, rest: seq<byte>, n: nat)
    requires 1 <= len <= 127
    ensures ReadPlane([len + 128, b] + rest, len + n) == Before(Repeat(b, len), ReadPlane(rest, n))
  {
    hide Repeat;
    var s := [len + 128, b] + rest;
    assert s[2..] == rest;
  }

  // ------------------------------------------------------------------------ writing

  method WriteRunData(ctx: Context, length: nat, databyte: byte)
    requires ctx.Valid() && ctx.used == 0 && 1 <= length <= 127
    modifies ctx
    ensures ctx.Valid() && ctx.used == 0 && ctx.Written() == old(ctx.Written()) + [length + 128, databyte]
  {
    ctx.Send([(length + 128) % 256]);
    ctx.Send([databyte]);
  }

  method WriteDumpData(ctx: Context, data: seq<byte>)
    requires ctx.Valid() && ctx.used == 0 && 1 <= |data| <= 128
    modifies ctx
    ensures ctx.Valid() && ctx.used == 0 && ctx.Written() == old(ctx.Written()) + ([|data|] + data)
  {
    ctx.Send([|data| % 256]);
    ctx.Send(data);
  }

  // The start of the next run of three equal bytes, or the end
  method FindRun(comp: seq<byte>, x: nat) returns (r: nat)
    requires x < |comp|
    ensures x <= r <= |comp| && (r + 2 < |comp| || r == |comp|)
    ensures r + 2 < |comp| ==> comp[r] == comp[r + 1] == comp[r + 2]
    ensures forall k | x <= k < r && k + 2 < |comp| :: !(comp[k] == comp[k + 1] && comp[k] == comp[k + 2])
  {
    r := x;
    while r + 2 < |comp|
      invariant x <= r <= |comp|
      invariant forall k | x <= k < r && k + 2 < |comp| :: !(comp[k] == comp[k + 1] && comp[k] == comp[k + 2])
    {
      if comp[r] == comp[r + 1] && comp[r] == comp[r + 2] {
        break;
      }
      r := r + 1;
    }
    if r + 2 >= |comp| {
      r := |comp|;
    }
  }

  // What has been written of a component: packets of its first x bytes
  ghost predicate Progress(ctx: Context, base: seq<byte>, bytes: seq<byte>, comp: seq<byte>, x: nat)
    reads ctx, ctx.buffer
  {
    ctx.Valid() && ctx.used == 0 && x <= |comp| && ctx.Written() == base + bytes && Packs(bytes, comp[..x])
  }

  method WriteDumps(ctx: Context, comp: seq<byte>, x0: nat, r: nat, ghost base: seq<byte>, ghost bytes0: seq<byte>)
    returns (x: nat, ghost bytes: seq<byte>)
    requires Progress(ctx, base, bytes0, comp, x0) && x0 <= r <= |comp|
    modifies ctx
    ensures Progress(ctx, base, bytes, comp, x) && x == r
  {
    hide Packs;
    x, bytes := x0, bytes0;
    while x < r
      invariant x <= r && Progress(ctx, base, bytes, comp, x)
    {
      var len := r - x;
      if len > 128 {
        len := 128;
      }
      ghost var packet := [len] + comp[x..x + len];
      DumpPacks(comp[x..x + len]);
      PacksOn(bytes, comp[..x], packet, comp[x..x + len]);
      assert comp[..x] + comp[x..x + len] == comp[..x + len];
      WriteDumpData(ctx, comp[x..x + len]);
      assert base + (bytes + packet) == (base + bytes) + packet;
      bytes := bytes + packet;
      x := x + len;
    }
  }

  method WriteRuns(ctx: Context, comp: seq<byte>, x0: nat, r: nat, ghost base: seq<byte>, ghost bytes0: seq<byte>)
    returns (x: nat, ghost bytes: seq<byte>)
    requires Progress(ctx, base, bytes0, comp, x0) && x0 <= r <= |comp|
    requires forall k | x0 <= k < r :: comp[k] == comp[x0]
    modifies ctx
    ensures Progress(ctx, base, bytes, comp, x) && x == r
  {
    hide Packs;
    x, bytes := x0, bytes0;
    while x < r
      invariant x0 <= x <= r && Progress(ctx, base, bytes, comp, x)
    {
      var len := r - x;
      if len > 127 {
        len := 127;
      }
      ghost var packet := [len + 128, comp[x]];
      RunPacks(comp[x], len);
      assert comp[x..x + len] == Repeat(comp[x], len);
      PacksOn(bytes, comp[..x], packet, comp[x..x + len]);
      assert comp[..x] + comp[x..x + len] == comp[..x + len];
      WriteRunData(ctx, len, comp[x]);
      assert base + (bytes + packet) == (base + bytes) + packet;
      bytes := bytes + packet;
      x := x + len;
    }
  }

  // One component plane
  method WritePlane(ctx: Context, comp: seq<byte>, ghost base: seq<byte>) returns (ghost bytes: seq<byte>)
    requires ctx.Valid() && ctx.used == 0 && ctx.Written() == base
    modifies ctx
    ensures ctx.Valid() && ctx.used == 0 && ctx.Written() == base + bytes && Packs(bytes, comp)
  {
    hide Packs;
    bytes := [];
    PacksNothing();
    assert base + bytes == base && comp[..0] == [];
    var x := 0;
    while x < |comp|
      invariant Progress(ctx, base, bytes, comp, x)
      decreases |comp| - x
    {
      var r := FindRun(comp, x);
      ghost var start := x;
      x, bytes := WriteDumps(ctx, comp, x, r, base, bytes);
      if r + 2 < |comp| {
        while r < |comp| && comp[r] == comp[x]
          invariant x <= r <= |comp| && forall k | x <= k < r :: comp[k] == comp[x]
          invariant r > start || (x == r && r < |comp|)
        {
          r := r + 1;
        }
        x, bytes := WriteRuns(ctx, comp, x, r, base, bytes);
      }
    }
    assert comp[..|comp|] == comp;
  }

  // The pixels of a scanline as its four component planes
  ghost predicate IsPlanes(planes: seq<seq<byte>>, width: nat) {
    |planes| == 4 && forall c | 0 <= c < 4 :: |planes[c]| == width
  }

  function FlatBytes(planes: seq<seq<byte>>, x: nat): seq<byte>
    requires |planes| == 4 && forall c | 0 <= c < 4 :: x <= |planes[c]|
  {
    if x == 0 then [] else FlatBytes(planes, x - 1) + [planes[0][x - 1], planes[1][x - 1], planes[2][x - 1], planes[3][x - 1]]
  }

  // x bytes of each plane in front of p
  function Front(planes: seq<seq<byte>>, x: nat, p: seq<seq<byte>>): seq<seq<byte>>
    requires |planes| == |p| == 4 && forall c | 0 <= c < 4 :: x <= |planes[c]|
  {
    [planes[0][..x] + p[0], planes[1][..x] + p[1], planes[2][..x] + p[2], planes[3][..x] + p[3]]
  }

  lemma FrontNone(planes: seq<seq<byte>>, p: seq<seq<byte>>)
    requires |planes| == |p| == 4
    ensures Front(planes, 0, p) == p
  {
    var f := Front(planes, 0, p);
    assert f[0] == p[0] && f[1] == p[1] && f[2] == p[2] && f[3] == p[3];
  }

  lemma FrontOne(planes: seq<seq<byte>>, x: nat, p: seq<seq<byte>>)
    requires |planes| == |p| == 4 && x > 0 && forall c | 0 <= c < 4 :: x <= |planes[c]|
    ensures var i := x - 1;
            var p' := [[planes[0][i]] + p[0], [planes[1][i]] + p[1], [planes[2][i]] + p[2], [planes[3][i]] + p[3]];
            Front(planes, i, p') == Front(planes, x, p)
  {
    TakeOne(planes[0], x, p[0]);
    TakeOne(planes[1], x, p[1]);
    TakeOne(planes[2], x, p[2]);
    TakeOne(planes[3], x, p[3]);
  }

  lemma TakeOne(plane: seq<byte>, x: nat, p: seq<byte>)
    requires 0 < x <= |plane|
    ensures plane[..x - 1] + ([plane[x - 1]] + p) == plane[..x] + p
  {
  }

  lemma ReadFlatOne(a: byte, b: byte, c: byte, d: byte, rest: seq<byte>, n: nat, p: seq<seq<byte>>, s: seq<byte>)
    requires |p| == 4 && ReadFlat(rest, n) == Some((p, s))
    ensures ReadFlat([a, b, c, d] + rest, n + 1) == Some(([[a] + p[0], [b] + p[1], [c] + p[2], [d] + p[3]], s))
  {
    assert ([a, b, c, d] + rest)[4..] == rest;
  }

  // What reading makes of flat pixels in front of a flat remainder
  lemma {:induction false} ReadFlatBytes(planes: seq<seq<byte>>, x: nat, rest: seq<byte>, n: nat, p: seq<seq<byte>>, s: seq<byte>)
    requires |planes| == 4 && (forall c | 0 <= c < 4 :: x <= |planes[c]|)
    requires |p| == 4 && ReadFlat(rest, n) == Some((p, s))
    ensures ReadFlat(FlatBytes(planes, x) + rest, x + n) == Some((Front(planes, x, p), s))
    decreases x
  {
    hide ReadFlat, Front;
    if x == 0 {
      assert FlatBytes(planes, 0) + rest == rest;
      FrontNone(planes, p);
    } else {
      var a, b, c, d := planes[0][x - 1], planes[1][x - 1], planes[2][x - 1], planes[3][x - 1];
      var p' := [[a] + p[0], [b] + p[1], [c] + p[2], [d] + p[3]];
      ReadFlatOne(a, b, c, d, rest, n, p, s);
      ReadFlatBytes(planes, x - 1, [a, b, c, d] + rest, n + 1, p', s);
      assert FlatBytes(planes, x) + rest == FlatBytes(planes, x - 1) + ([a, b, c, d] + rest);
      FrontOne(planes, x, p);
    }
  }

  lemma FlatDecodes(planes: seq<seq<byte>>, width: nat, rest: seq<byte>)
    requires IsPlanes(planes, width)
    ensures ReadFlat(FlatBytes(planes, width) + rest, width) == Some((planes, rest))
  {
    var none: seq<seq<byte>> := [[], [], [], []];
    assert ReadFlat(rest, 0) == Some((none, rest));
    hide ReadFlat;
    ReadFlatBytes(planes, width, rest, 0, none, rest);
    var f := Front(planes, width, none);
    assert f[0] == planes[0] && f[1] == planes[1] && f[2] == planes[2] && f[3] == planes[3];
    assert f == planes;
  }

  // The bytes are packets of the first k planes, whatever follows them.
  ghost predicate PacksPlanes(bytes: seq<byte>, planes: seq<seq<byte>>, width: nat) {
    forall rest: seq<byte> :: ReadPlanes(bytes + rest, width, |planes|) == Some((planes, rest))
  }

  lemma ReadNothing(s: seq<byte>)
    ensures ReadPlane(s, 0) == Some(([], s))
  {
  }

  lemma {:induction false} LastPlane(s: seq<byte>, n: nat, planes: seq<seq<byte>>, s': seq<byte>, plane: seq<byte>, rest: seq<byte>)
    requires ReadPlanes(s, n, |planes|) == Some((planes, s')) && ReadPlane(s', n) == Some((plane, rest))
    ensures ReadPlanes(s, n, |planes| + 1) == Some((planes + [plane], rest))
    decreases |planes|
  {
    hide ReadPlane;
    if planes == [] {
      assert ReadPlanes(rest, n, 0) == Some(([], rest));
      assert [plane] + [] == planes + [plane];
    } else {
      var s1 := ReadPlane(s, n).value.1;
      var tail := ReadPlanes(s1, n, |planes| - 1).value.0;
      assert planes == [planes[0]] + tail && planes[1..] == tail;
      LastPlane(s1, n, planes[1..], s', plane, rest);
      assert [planes[0]] + (planes[1..] + [plane]) == planes + [plane];
    }
  }

  lemma PacksPlanesOn(a: seq<byte>, planes: seq<seq<byte>>, b: seq<byte>, plane: seq<byte>)
    requires PacksPlanes(a, planes, |plane|) && Packs(b, plane)
    ensures PacksPlanes(a + b, planes + [plane], |plane|)
  {
    hide ReadPlane, ReadPlanes;
    forall rest: seq<byte>
      ensures ReadPlanes(a + b + rest, |plane|, |planes + [plane]|) == Some((planes + [plane], rest))
    {
      assert ReadPlane(b + rest, |plane| + 0) == Before(plane, ReadPlane(rest, 0));
      ReadNothing(rest);
      assert plane + [] == plane;
      assert a + b + rest == a + (b + rest);
      LastPlane(a + (b + rest), |plane|, planes, b + rest, plane, rest);
    }
  }

  lemma NoPlanes(width: nat)
    ensures PacksPlanes([], [], width)
  {
    var none: seq<byte> := [];
    forall rest: seq<byte> ensures ReadPlanes(none + rest, width, 0) == Some(([], rest)) {
      assert none + rest == rest;
    }
  }

  lemma PackedDecodes(bytes: seq<byte>, planes: seq<seq<byte>>, width: nat, rest: seq<byte>)
    requires IsPacked(width) && |planes| == 4 && PacksPlanes(bytes, planes, width)
    ensures ReadScanline([2, 2, width / 256 % 256, width % 256] + bytes + rest, width) == Some((planes, rest))
  {
    hide ReadPlanes;
    var s := [2, 2, width / 256 % 256, width % 256] + bytes + rest;
    assert s[4..] == bytes + rest;
  }

  // The four components of pixel x, one byte each
  ghost predicate PixelAt(bytes: seq<byte>, planes: seq<seq<byte>>, x: nat)
    requires |planes| == 4 && forall c | 0 <= c < 4 :: x < |planes[c]|
  {
    4 * x + 4 <= |bytes| && bytes[4 * x..4 * x + 4] == [planes[0][x], planes[1][x], planes[2][x], planes[3][x]]
  }

  lemma {:induction false} FlatPixels(planes: seq<seq<byte>>, n: nat)
    requires |planes| == 4 && forall c | 0 <= c < 4 :: n <= |planes[c]|
    ensures |FlatBytes(planes, n)| == 4 * n
    ensures forall x | 0 <= x < n :: PixelAt(FlatBytes(planes, n), planes, x)
  {
    if n > 0 {
      FlatPixels(planes, n - 1);
      var front, all := FlatBytes(planes, n - 1), FlatBytes(planes, n);
      assert |all| == 4 * n && all[..4 * (n - 1)] == front;
      forall x | 0 <= x < n ensures PixelAt(all, planes, x) {
        if x < n - 1 {
          assert PixelAt(front, planes, x);
          assert all[4 * x..4 * x + 4] == front[4 * x..4 * x + 4];
        }
      }
    }
  }

  // A scanline of any width: a reader gets the four planes back, whatever
  // follows in the file.
  method WriteScanline(ctx: Context, planes: seq<seq<byte>>, width: nat) returns (ghost bytes: seq<byte>)
    requires ctx.Valid() && ctx.used == 0 && IsPlanes(planes, width)
    modifies ctx
    ensures ctx.Valid() && ctx.used == 0 && ctx.Written() == old(ctx.Written()) + bytes
    ensures forall rest: seq<byte> :: ReadScanline(bytes + rest, width) == Some((planes, rest))
    ensures if 8 <= width < 32768 then [2, 2, width / 256, width % 256] <= bytes
            else |bytes| == 4 * width && forall x | 0 <= x < width :: PixelAt(bytes, planes, x)
  {
    hide ReadFlat, ReadPlanes, ReadScanline, Packs, FlatBytes, PixelAt;
    ghost var base := ctx.Written();
    if width < 8 || width >= 32768 {
      WriteFlat(ctx, planes, width, base);
      bytes := FlatBytes(planes, width);
      FlatPixels(planes, width);
      forall rest: seq<byte> ensures ReadScanline(bytes + rest, width) == Some((planes, rest)) {
        FlatDecodes(planes, width, rest);
        FlatScanline(bytes + rest, width);
      }
    } else {
      ghost var packets := WritePacked(ctx, planes, width, base);
      bytes := [2, 2, width / 256 % 256, width % 256] + packets;
      forall rest: seq<byte> ensures ReadScanline(bytes + rest, width) == Some((planes, rest)) {
        PackedDecodes(packets, planes, width, rest);
      }
    }
  }

  lemma FlatScanline(s: seq<byte>, width: nat)
    requires !IsPacked(width)
    ensures ReadScanline(s, width) == ReadFlat(s, width)
  {
  }

  method WriteFlat(ctx: Context, planes: seq<seq<byte>>, width: nat, ghost base: seq<byte>)
    requires ctx.Valid() && ctx.used == 0 && IsPlanes(planes, width) && ctx.Written() == base
    modifies ctx
    ensures ctx.Valid() && ctx.used == 0 && ctx.Written() == base + FlatBytes(planes, width)
  {
    assert base + [] == base;
    for x := 0 to width
      invariant ctx.Valid() && ctx.used == 0 && ctx.Written() == base + FlatBytes(planes, x)
    {
      var rgbe := [planes[0][x], planes[1][x], planes[2][x], planes[3][x]];
      assert base + FlatBytes(planes, x + 1) == (base + FlatBytes(planes, x)) + rgbe;
      ctx.Send(rgbe);
    }
  }

  method WritePacked(ctx: Context, planes: seq<seq<byte>>, width: nat, ghost base: seq<byte>) returns (ghost packets: seq<byte>)
    requires ctx.Valid() && ctx.used == 0 && IsPlanes(planes, width) && ctx.Written() == base
    modifies ctx
    ensures ctx.Valid() && ctx.used == 0 && PacksPlanes(packets, planes, width)
    ensures ctx.Written() == base + ([2, 2, width / 256 % 256, width % 256] + packets)
  {
    hide Packs, PacksPlanes, Context.Valid, Context.Written;
    ghost var head := [2, 2, width / 256 % 256, width % 256];
    ctx.Send([2, 2, width / 256 % 256, width % 256]);
    packets := [];
    NoPlanes(width);
    assert planes[..0] == [];
    assert base + (head + packets) == base + head;
    for c := 0 to 4
      invariant ctx.Valid() && ctx.used == 0
      invariant ctx.Written() == base + (head + packets) && PacksPlanes(packets, planes[..c], width)
    {
      ghost var plane := WritePlane(ctx, planes[c], base + (head + packets));
      PacksPlanesOn(packets, planes[..c], plane, planes[c]);
      assert planes[..c] + [planes[c]] == planes[..c + 1];
      assert (base + (head + packets)) + plane == base + (head + (packets + plane));
      packets := packets + plane;
    }
    assert planes[..4] == planes;
  }
}
