/** The run-length packets of `stbi_write_tga_core`, and a reader for the
    packets of TGA image types 10 and 11. */
module Tga {
  import opened Bits
  import opened Options
  import opened WriteContext

  // The bytes of one pixel in the file: blue, green, red for colour, grey
  // otherwise, alpha last
  type Pixel = seq<byte>

  function Stored(p: Pixel): (r: Pixel)
    requires 1 <= |p| <= 4
    ensures |r| == |p|
  {
    match |p|
    case 1 => p
    case 2 => p
    case 3 => [p[2], p[1], p[0]]
    case 4 => [p[2], p[1], p[0], p[3]]
  }

  // What the bytes of a pixel in the file stand for: blue, green and red in image
  // type 10, grey in type 11, and the attribute byte behind them
  function FromFile(b: seq<byte>): (p: Pixel)
    requires 1 <= |b| <= 4
    ensures |p| == |b|
  {
    if |b| <= 2 then
      var grey := b[0];
      [grey] + b[1..]
    else
      var blue, green, red := b[0], b[1], b[2];
      [red, green, blue] + b[3..]
  }

  lemma StoredRead(p: Pixel)
    requires 1 <= |p| <= 4
    ensures FromFile(Stored(p)) == p
  {
  }

  // A row's pixels read from n raw pixels of a packet
  function ReadRaw(s: seq<byte>, size: nat, n: nat): Option<seq<Pixel>>
    requires 1 <= size <= 4
    decreases n
  {
    if n == 0 then Some([])
    else if |s| < size then None
    else
      match ReadRaw(s[size..], size, n - 1)
      case None => None
      case Some(rest) => Some([FromFile(s[..size])] + rest)
  }

  function Repeat(p: Pixel, n: nat): (r: seq<Pixel>)
    ensures |r| == n && forall i | 0 <= i < n :: r[i] == p
  {
    seq(n, _ => p)
  }

  // A row of n pixels from its packets; packets do not cross rows.
  function ReadRow(s: seq<byte>, size: nat, n: nat): Option<(seq<Pixel>, seq<byte>)>
    requires 1 <= size <= 4
    decreases n
  {
    if n == 0 then Some(([], s))
    else if s == [] then None
    else
      var count := s[0] % 128 + 1;
      var bytes := if s[0] < 128 then count * size else size;
      if count > n || |s| < 1 + bytes then None
      else
        var pixels := if s[0] < 128 then ReadRaw(s[1..1 + bytes], size, count)
                      else Some(Repeat(FromFile(s[1..1 + size]), count));
        match (pixels, ReadRow(s[1 + bytes..], size, n - count))
        case (Some(p), Some((rest, s'))) => Some((p + rest, s'))
        case _ => None
  }

  function ReadRows(s: seq<byte>, size: nat, n: nat, rows: nat): Option<(seq<seq<Pixel>>, seq<byte>)>
    requires 1 <= size <= 4
    decreases rows
  {
    if rows == 0 then Some(([], s))
    else
      match ReadRow(s, size, n)
      case None => None
      case Some((row, s')) =>
        match ReadRows(s', size, n, rows - 1)
        case None => None
        case Some((rest, s'')) => Some(([row] + rest, s''))
  }

  // -------------------------------------------------------------- packets written

  function RawBytes(row: seq<Pixel>): seq<byte>
    requires forall i | 0 <= i < |row| :: 1 <= |row[i]| <= 4
  {
    if row == [] then [] else Stored(row[0]) + RawBytes(row[1..])
  }

  ghost predicate IsRow(row: seq<Pixel>, size: nat) {
    1 <= size <= 4 && forall i | 0 <= i < |row| :: |row[i]| == size
  }

  lemma {:induction false} RawBytesSize(row: seq<Pixel>, size: nat)
    requires IsRow(row, size)
    ensures |RawBytes(row)| == |row| * size
    decreases |row|
  {
    if row == [] {
    } else {
      RawBytesSize(row[1..], size);
      assert |row| * size == (|row| - 1) * size + size;
    }
  }

  lemma {:induction false} ReadRawBytes(row: seq<Pixel>, size: nat)
    requires IsRow(row, size)
    ensures ReadRaw(RawBytes(row), size, |row|) == Some(row)
    decreases |row|
  {
    if row == [] {
    } else {
      ReadRawBytes(row[1..], size);
      StoredRead(row[0]);
      var s := RawBytes(row);
      assert s[..size] == Stored(row[0]) && s[size..] == RawBytes(row[1..]);
      assert [row[0]] + row[1..] == row;
    }
  }

  lemma ReadRawPacket(part: seq<Pixel>, size: nat, rest: seq<byte>, n: nat)
    requires IsRow(part, size) && 1 <= |part| <= 128 && |part| <= n
    ensures ReadRow([|part| - 1] + RawBytes(part) + rest, size, n)
         == match ReadRow(rest, size, n - |part|) case None => None case Some((more, s)) => Some((part + more, s))
  {
    hide RawBytes, ReadRaw;
    RawBytesSize(part, size);
    ReadRawBytes(part, size);
    var bytes := RawBytes(part);
    var s := [|part| - 1] + bytes + rest;
    assert s[1..1 + |bytes|] == bytes && s[1 + |bytes|..] == rest;
  }

  lemma ReadRunPacket(p: Pixel, len: nat, rest: seq<byte>, n: nat)
    requires 1 <= |p| <= 4 && 1 <= len <= 128 && len <= n
    ensures ReadRow([len + 127] + Stored(p) + rest, |p|, n)
         == match ReadRow(rest, |p|, n - len) case None => None case Some((more, s)) => Some((Repeat(p, len) + more, s))
  {
    hide Stored, FromFile, ReadRaw, Repeat;
    StoredRead(p);
    var s := [len + 127] + Stored(p) + rest;
    assert s[1..1 + |p|] == Stored(p) && s[1 + |p|..] == rest;
  }

  // What reading does with a part of a row in front of the rest
  function Before(part: seq<Pixel>, r: Option<(seq<Pixel>, seq<byte>)>): Option<(seq<Pixel>, seq<byte>)> {
    match r case None => None case Some((more, s)) => Some((part + more, s))
  }

  // The bytes are packets of the part, whatever follows them.
  ghost predicate Packs(bytes: seq<byte>, part: seq<Pixel>, size: nat) {
    1 <= size <= 4 &&
    forall rest: seq<byte>, n: nat :: ReadRow(bytes + rest, size, |part| + n) == Before(part, ReadRow(rest, size, n))
  }

  lemma PacksNothing(size: nat)
    requires 1 <= size <= 4
    ensures Packs([], [], size)
  {
    hide ReadRow;
    var no: seq<byte>, none: seq<Pixel> := [], [];
    forall rest: seq<byte>, n: nat
      ensures ReadRow(no + rest, size, |none| + n) == Before(none, ReadRow(rest, size, n))
    {
      assert no + rest == rest;
      match ReadRow(rest, size, n)
      case None =>
      case Some((more, s)) => assert none + more == more;
    }
  }

  lemma PacksOn(a: seq<byte>, p: seq<Pixel>, b: seq<byte>, q: seq<Pixel>, size: nat)
    requires Packs(a, p, size) && Packs(b, q, size)
    ensures Packs(a + b, p + q, size)
  {
    hide ReadRow;
    forall rest: seq<byte>, n: nat
      ensures ReadRow((a + b) + rest, size, |p + q| + n) == Before(p + q, ReadRow(rest, size, n))
    {
      assert (a + b) + rest == a + (b + rest);
      assert ReadRow(a + (b + rest), size, |p| + (|q| + n)) == Before(p, ReadRow(b + rest, size, |q| + n));
      match ReadRow(rest, size, n)
      case None =>
      case Some((more, s)) => assert (p + q) + more == p + (q + more);
    }
  }

  lemma RawPacks(part: seq<Pixel>, size: nat)
    requires IsRow(part, size) && 1 <= |part| <= 128
    ensures Packs([|part| - 1] + RawBytes(part), part, size)
  {
    hide ReadRow, RawBytes;
    var bytes := [|part| - 1] + RawBytes(part);
    forall rest: seq<byte>, n: nat
      ensures ReadRow(bytes + rest, size, |part| + n) == Before(part, ReadRow(rest, size, n))
    {
      ReadRawPacket(part, size, rest, |part| + n);
    }
  }

  lemma RunPacks(p: Pixel, len: nat)
    requires 1 <= |p| <= 4 && 1 <= len <= 128
    ensures Packs([len + 127] + Stored(p), Repeat(p, len), |p|)
  {
    hide ReadRow;
    var bytes, part := [len + 127] + Stored(p), Repeat(p, len);
    forall rest: seq<byte>, n: nat
      ensures ReadRow(bytes + rest, |p|, |part| + n) == Before(part, ReadRow(rest, |p|, n))
    {
      ReadRunPacket(p, len, rest, len + n);
    }
  }

  // ---------------------------------------------------------------------- writing

  // stbiw__write_pixel with rgb_dir -1 and alpha where the pixel has it
  method WritePixel(ctx: Context, d: Pixel)
    requires ctx.Valid() && 1 <= |d| <= 4
    modifies ctx, ctx.buffer
    ensures ctx.Valid() && ctx.Written() == old(ctx.Written()) + Stored(d)
    ensures |d| == 1 ==> ctx.Written() == old(ctx.Written()) + [d[0]]
    ensures |d| == 2 ==> ctx.Written() == old(ctx.Written()) + [d[0], d[1]]
    ensures |d| == 3 ==> ctx.Written() == old(ctx.Written()) + [d[2], d[1], d[0]]
    ensures |d| == 4 ==> ctx.Written() == old(ctx.Written()) + [d[2], d[1], d[0], d[3]]
  {
    var comp := |d|;
    if comp <= 2 {
      ctx.Write1(d[0]);
    } else {
      ctx.Write3(d[2], d[1], d[0]);
    }
    if comp == 2 || comp == 4 {
      ctx.Write1(d[comp - 1]);
    }
  }

  // The extent of the next packet, and whether it holds different pixels.  The
  // comparison of a raw packet lags two pixels behind, which only costs size.
  method NextPacket(row: seq<Pixel>, i: nat) returns (len: nat, diff: bool)
    requires i < |row|
    ensures 1 <= len <= 128 && i + len <= |row|
    ensures !diff ==> len >= 2 && row[i..i + len] == Repeat(row[i], len)
  {
    var x := |row|;
    diff := true;
    len := 1;
    if i < x - 1 {
      len := 2;
      diff := row[i] != row[i + 1];
      var k := i + 2;
      if diff {
        var prev := i;
        while k < x && len < 128
          invariant prev == k - 2 && len == k - i && 2 <= len <= 128 && k <= x
        {
          if row[prev] != row[k] {
            prev := prev + 1;
            len := len + 1;
          } else {
            len := len - 1;
            break;
          }
          k := k + 1;
        }
      } else {
        while k < x && len < 128
          invariant len == k - i && 2 <= len <= 128 && k <= x
          invariant forall m | i <= m < k :: row[m] == row[i]
        {
          if row[i] == row[k] {
            len := len + 1;
          } else {
            break;
          }
          k := k + 1;
        }
      }
    }
  }

  method WriteRaw(ctx: Context, part: seq<Pixel>, size: nat)
    requires ctx.Valid() && IsRow(part, size)
    modifies ctx, ctx.buffer
    ensures ctx.Valid() && ctx.Written() == old(ctx.Written()) + RawBytes(part)
  {
    hide Stored;
    ghost var base := ctx.Written();
    ghost var done: seq<byte> := [];
    assert done + RawBytes(part[0..]) == RawBytes(part) by { assert part[0..] == part; }
    for k := 0 to |part|
      invariant ctx.Valid() && ctx.Written() == base + done
      invariant done + RawBytes(part[k..]) == RawBytes(part)
    {
      assert part[k..][1..] == part[k + 1..];
      WritePixel(ctx, part[k]);
      done := done + Stored(part[k]);
    }
  }

  method WritePacket(ctx: Context, part: seq<Pixel>, diff: bool, size: nat) returns (ghost packet: seq<byte>)
    requires ctx.Valid() && IsRow(part, size) && 1 <= |part| <= 128 && (!diff ==> part == Repeat(part[0], |part|))
    modifies ctx, ctx.buffer
    ensures ctx.Valid() && ctx.Written() == old(ctx.Written()) + packet && Packs(packet, part, size)
  {
    hide Packs, Stored, RawBytes;
    var len := |part|;
    if diff {
      packet := [len - 1] + RawBytes(part);
      RawPacks(part, size);
      ctx.Write1(len - 1);
      WriteRaw(ctx, part, size);
    } else {
      packet := [len + 127] + Stored(part[0]);
      RunPacks(part[0], len);
      ctx.Write1((len as int - 129) % 256);
      WritePixel(ctx, part[0]);
    }
  }

  method WriteRow(ctx: Context, row: seq<Pixel>, size: nat, ghost base: seq<byte>) returns (ghost bytes: seq<byte>)
    requires ctx.Valid() && IsRow(row, size) && ctx.Written() == base
    modifies ctx, ctx.buffer
    ensures ctx.Valid() && ctx.Written() == base + bytes && Packs(bytes, row, size)
  {
    hide Packs, Context.Valid, Context.Written, Repeat;
    bytes := [];
    PacksNothing(size);
    assert base + bytes == base;
    assert row[..0] == [];
    var i := 0;
    while i < |row|
      invariant i <= |row| && ctx.Valid() && ctx.Written() == base + bytes && Packs(bytes, row[..i], size)
    {
      var len, diff := NextPacket(row, i);
      ghost var packet := WritePacket(ctx, row[i..i + len], diff, size);
      PacksOn(bytes, row[..i], packet, row[i..i + len], size);
      assert row[..i] + row[i..i + len] == row[..i + len];
      assert base + (bytes + packet) == (base + bytes) + packet;
      bytes := bytes + packet;
      i := i + len;
    }
    assert row[..|row|] == row;
  }

  // ------------------------------------------------------------------- whole files

  datatype Image = Image(width: nat, height: nat, size: nat, rows: seq<seq<Pixel>>)

  // The 18-byte header of a run-length image without colour map
  function Header(x: nat, y: nat, comp: nat): seq<byte>
    requires 1 <= comp <= 4
  {
    var alpha := if comp == 2 || comp == 4 then 8 else 0;
    [0, 0, if comp <= 2 then 11 else 10, 0, 0, 0, 0, 0, 0, 0, 0, 0, x % 256, x / 256 % 256, y % 256, y / 256 % 256, 8 * comp, alpha]
  }

  // Reads run-length images of 8-bit samples with no identification field.
  function DecodeTga(s: seq<byte>): Option<Image> {
    if |s| < 18 || s[0] != 0 || s[1] != 0 || s[16] % 8 != 0 || !(1 <= s[16] / 8 <= 4) then None
    else if s[2] != (if s[16] / 8 <= 2 then 11 else 10) then None
    else
      var width, height, size := s[12] as int + 256 * s[13] as int, s[14] as int + 256 * s[15] as int, s[16] / 8;
      match ReadRows(s[18..], size, width, height)
      case None => None
      case Some((rows, rest)) => if rest == [] then Some(Image(width, height, size, rows)) else None
  }

  // The rows in the order they are written: TGA starts at the bottom.
  function Order(rows: seq<seq<Pixel>>, flip: bool): (r: seq<seq<Pixel>>)
    ensures |r| == |rows|
  {
    if flip then rows else seq(|rows|, i requires 0 <= i < |rows| => rows[|rows| - 1 - i])
  }

  ghost predicate IsImage(rows: seq<seq<Pixel>>, x: nat, comp: nat) {
    1 <= comp <= 4 && forall j | 0 <= j < |rows| :: |rows[j]| == x && IsRow(rows[j], comp)
  }

  // The bytes are the packets of the rows, whatever follows them.
  ghost predicate PacksRows(bytes: seq<byte>, rows: seq<seq<Pixel>>, x: nat, size: nat) {
    1 <= size <= 4 && forall rest: seq<byte> :: ReadRows(bytes + rest, size, x, |rows|) == Some((rows, rest))
  }

  lemma {:induction false} ReadRowsOn(a: seq<byte>, rows: seq<seq<Pixel>>, b: seq<byte>, row: seq<Pixel>, size: nat, rest: seq<byte>)
    requires PacksRows(a, rows, |row|, size) && Packs(b, row, size)
    ensures ReadRows(a + b + rest, size, |row|, |rows| + 1) == Some((rows + [row], rest))
  {
    hide ReadRow;
    assert ReadRow(b + rest, size, |row| + 0) == Before(row, ReadRow(rest, size, 0));
    assert ReadRow(rest, size, 0) == Some(([], rest)) by { ReadNoPixels(rest, size); }
    assert row + [] == row;
    assert a + b + rest == a + (b + rest);
    LastRow(a + (b + rest), size, |row|, rows, b + rest, row, rest);
  }

  lemma ReadNoPixels(s: seq<byte>, size: nat)
    requires 1 <= size <= 4
    ensures ReadRow(s, size, 0) == Some(([], s))
  {
  }

  // One row more at the end
  lemma {:induction false} LastRow(s: seq<byte>, size: nat, n: nat, rows: seq<seq<Pixel>>, s': seq<byte>, row: seq<Pixel>, rest: seq<byte>)
    requires 1 <= size <= 4 && ReadRows(s, size, n, |rows|) == Some((rows, s')) && ReadRow(s', size, n) == Some((row, rest))
    ensures ReadRows(s, size, n, |rows| + 1) == Some((rows + [row], rest))
    decreases |rows|
  {
    hide ReadRow;
    if rows == [] {
      assert ReadRows(rest, size, n, 0) == Some(([], rest));
      assert [row] + [] == rows + [row];
    } else {
      var s1 := ReadRow(s, size, n).value.1;
      var tail := ReadRows(s1, size, n, |rows| - 1).value.0;
      assert rows == [rows[0]] + tail && rows[1..] == tail;
      LastRow(s1, size, n, rows[1..], s', row, rest);
      assert [rows[0]] + (rows[1..] + [row]) == rows + [row];
    }
  }

  lemma PacksRowsOn(a: seq<byte>, rows: seq<seq<Pixel>>, b: seq<byte>, row: seq<Pixel>, size: nat)
    requires PacksRows(a, rows, |row|, size) && Packs(b, row, size)
    ensures PacksRows(a + b, rows + [row], |row|, size)
  {
    hide ReadRows, Packs;
    forall rest: seq<byte> ensures ReadRows(a + b + rest, size, |row|, |rows + [row]|) == Some((rows + [row], rest)) {
      ReadRowsOn(a, rows, b, row, size, rest);
    }
  }

  lemma NoRows(x: nat, size: nat)
    requires 1 <= size <= 4
    ensures PacksRows([], [], x, size)
  {
    var none: seq<byte> := [];
    forall rest: seq<byte> ensures ReadRows(none + rest, size, x, 0) == Some(([], rest)) {
      assert none + rest == rest;
    }
  }

  lemma FileDecodes(s: seq<byte>, bytes: seq<byte>, rows: seq<seq<Pixel>>, x: nat, comp: nat)
    requires 1 <= comp <= 4 && s == Header(x, |rows|, comp) + bytes && PacksRows(bytes, rows, x, comp)
    ensures DecodeTga(s) == Some(Image(x, |rows|, comp, rows)) <==> x < 65536 && |rows| < 65536
  {
    hide ReadRows;
    assert s[18..] == bytes;
    assert bytes + [] == bytes;
    assert ReadRows(bytes + [], comp, x, |rows|) == Some((rows, []));
    var width, height := s[12] as int + 256 * s[13] as int, s[14] as int + 256 * s[15] as int;
    Little(x);
    Little(|rows|);
    assert width == x % 65536 && height == |rows| % 65536;
  }

  lemma Little(v: nat)
    ensures v % 256 + 256 * (v / 256 % 256) == v % 65536
  {
    var q, r := v / 256, v % 256;
    Remainder(v, q / 256, r + 256 * (q % 256));
  }

  lemma Remainder(v: nat, high: nat, low: nat)
    requires low < 65536 && v == 65536 * high + low
    ensures v % 65536 == low
  {
  }

  // An image of one red pixel
  lemma RedPixel()
    ensures DecodeTga([0, 0, 10, 0, 0, 0, 0, 0, 0, 0, 0, 0, 1, 0, 1, 0, 24, 0] + [0, 0, 0, 255])
         == Some(Image(1, 1, 3, [[[255, 0, 0]]]))
  {
    var head, body: seq<byte> := [0, 0, 10, 0, 0, 0, 0, 0, 0, 0, 0, 0, 1, 0, 1, 0, 24, 0], [0, 0, 0, 255];
    var red: Pixel := [255, 0, 0];
    assert Stored(red) == [0, 0, 255];
    assert RawBytes([red]) == [0, 0, 255] + [];
    assert [0] + RawBytes([red]) == body;
    RawPacks([red], 3);
    NoRows(1, 3);
    PacksRowsOn([], [], body, [red], 3);
    assert [] + body == body && [] + [[red]] == [[red]];
    FileDecodes(head + body, body, [[red]], 1, 3);
  }

  // stbi_write_tga_core with run-length packets: a reader gets the rows back
  // exactly when both sizes fit the header's 16 bits. The first row in the file is
  // the bottom one of the image.
  method WriteTga(rows: seq<seq<Pixel>>, x: nat, comp: nat, flip: bool) returns (s: seq<byte>)
    requires IsImage(rows, x, comp)
    ensures DecodeTga(s) == Some(Image(x, |rows|, comp, Order(rows, flip))) <==> x < 65536 && |rows| < 65536
    ensures forall k: nat | k < |rows| :: Order(rows, flip)[k] == if flip then rows[k] else rows[|rows| - 1 - k]
    ensures |s| >= 18 && s[..12] == [0, 0, if comp <= 2 then 11 else 10, 0, 0, 0, 0, 0, 0, 0, 0, 0]
    ensures s[12..16] == [x % 256, x / 256 % 256, |rows| % 256, |rows| / 256 % 256]
    ensures s[16..18] == [8 * comp, if comp == 2 || comp == 4 then 8 else 0]
  {
    hide Packs, PacksRows, DecodeTga, Header, Context.Valid, Context.Written;
    var y := |rows|;
    var ctx := new Context();
    WriteAll(ctx, Header(x, y, comp));
    ghost var head := Header(x, y, comp);
    ghost var bytes := [];
    ghost var order := Order(rows, flip);
    NoRows(x, comp);
    assert head + bytes == head && order[..0] == [];
    var j, jend, jdir := if flip then 0 else y - 1, if flip then y else -1, if flip then 1 else -1;
    ghost var done := 0;
    while j != jend
      invariant fresh(ctx) && fresh(ctx.buffer) && ctx.Valid() && 0 <= done <= y
      invariant j == if flip then done else y - 1 - done
      invariant ctx.Written() == head + bytes && PacksRows(bytes, order[..done], x, comp)
      decreases y - done
    {
      ghost var packets := WriteRow(ctx, rows[j], comp, head + bytes);
      assert order[done] == rows[j];
      PacksRowsOn(bytes, order[..done], packets, rows[j], comp);
      assert order[..done] + [rows[j]] == order[..done + 1];
      assert (head + bytes) + packets == head + (bytes + packets);
      bytes := bytes + packets;
      j, done := j + jdir, done + 1;
    }
    ctx.Flush();
    s := ctx.sent;
    assert order[..y] == order;
    FileDecodes(s, bytes, order, x, comp);
    HeaderParts(x, y, comp);
    assert s[..18] == head && s[..12] == head[..12] && s[12..16] == head[12..16] && s[16..18] == head[16..];
  }

  lemma HeaderParts(x: nat, y: nat, comp: nat)
    requires 1 <= comp <= 4
    ensures var h := Header(x, y, comp);
            && |h| == 18 && h[..12] == [0, 0, if comp <= 2 then 11 else 10, 0, 0, 0, 0, 0, 0, 0, 0, 0]
            && h[12..16] == [x % 256, x / 256 % 256, y % 256, y / 256 % 256]
            && h[16..] == [8 * comp, if comp == 2 || comp == 4 then 8 else 0]
  {
  }

  method WriteAll(ctx: Context, s: seq<byte>)
    requires ctx.Valid()
    modifies ctx, ctx.buffer
    ensures ctx.Valid() && ctx.Written() == old(ctx.Written()) + s
  {
    hide Context.Valid, Context.Written;
    ghost var base := ctx.Written();
    assert base + s[..0] == base;
    for i := 0 to |s|
      invariant ctx.Valid() && ctx.Written() == base + s[..i]
    {
      assert (base + s[..i]) + [s[i]] == base + s[..i + 1];
      ctx.Write1(s[i]);
    }
    assert s[..|s|] == s;
  }
}
