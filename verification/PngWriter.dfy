/** `stbi_write_png_to_mem` of stb_image_write.h: scanline filters with a
    heuristic choice, compression, and chunk framing into an exact buffer. */
module PngWriter {
  import opened Bits
  import opened Crc
  import opened Options
  import opened Png
  import opened Zlib
  import ZlibWriter

  // ------------------------------------------------------------ pixels in memory

  lemma Between(stride: int, r: nat, last: nat)
    requires r <= last
    ensures stride >= 0 ==> 0 <= stride * r <= stride * last
    ensures stride < 0 ==> stride * last <= stride * r <= 0
  {
  }

  // A caller's pixel block: height rows of size bytes each, the first at base and
  // the others stride bytes apart, upwards or downwards in memory
  datatype Pixels = Pixels(mem: seq<byte>, base: nat, stride: int, size: nat, height: nat, flip: bool)
  {
    ghost predicate Valid() {
      height > 0 ==> base + size <= |mem| && 0 <= base + stride * (height - 1) <= |mem| - size
    }

    // Where the row written as number y starts
    function Start(y: nat): (p: nat)
      requires y < height && Valid()
      ensures p + size <= |mem|
    {
      var r := if flip then height - 1 - y else y;
      Between(stride, r, height - 1);
      base + stride * r
    }

    function Row(y: nat): (row: seq<byte>)
      requires y < height && Valid()
      ensures |row| == size
    {
      mem[Start(y)..Start(y) + size]
    }

    // The first k rows in the written order
    function Rows(k: nat): (rows: seq<seq<byte>>)
      requires k <= height && Valid()
      ensures |rows| == k
    {
      if k == 0 then [] else Rows(k - 1) + [Row(k - 1)]
    }

    lemma {:induction false} RowsAt(k: nat, r: nat)
      requires r < k <= height && Valid()
      ensures Rows(k)[r] == Row(r)
      decreases k
    {
      if r < k - 1 {
        RowsAt(k - 1, r);
      }
    }

    // The row above row y, zeros for the first
    function Above(y: nat): (row: seq<byte>)
      requires y < height && Valid()
      ensures |row| == size
    {
      if y == 0 then Zeros(size) else Row(y - 1)
    }

    function SignedStride(): int {
      if flip then -stride else stride
    }

    // Stepping by the signed stride reaches the row above.
    lemma StepUp(y: nat)
      requires 0 < y < height && Valid()
      ensures Start(y - 1) == Start(y) - SignedStride()
    {
    }
  }

  lemma {:induction false} ZerosAt(n: nat, i: nat)
    requires i < n
    ensures Zeros(n)[i] == 0
  {
    if i == n - 1 {
    } else {
      ZerosAt(n - 1, i);
    }
  }

  // ---------------------------------------------------------------- one scanline

  type sbyte = x: int | -128 <= x < 128

  // The C cast of an int to signed char
  function SChar(v: int): sbyte {
    if v % 256 < 128 then v % 256 else v % 256 - 256
  }

  // The byte a signed char holds
  function AsByte(v: sbyte): byte {
    v % 256
  }

  function AsBytes(s: seq<sbyte>): (r: seq<byte>)
    ensures |r| == |s| && forall i | 0 <= i < |s| :: r[i] == AsByte(s[i])
  {
    seq(|s|, i requires 0 <= i < |s| => AsByte(s[i]))
  }

  lemma CastKeepsByte(v: int)
    ensures AsByte(SChar(v)) == v % 256
  {
  }

  // The filter switch for a row y: the first row has no row above it.
  function LineType(y: nat, kind: nat): nat
    requires kind <= 4
  {
    if y != 0 then kind else match kind case 0 => 0 case 1 => 1 case 2 => 0 case 3 => 5 case 4 => 6
  }

  // The first pixel of a row, z at hand and u above it
  function FirstDiff(kind: nat, z: byte, u: byte): int
    requires 1 <= kind <= 6
  {
    match kind
    case 1 => z
    case 2 => z - u
    case 3 => z - u / 2
    case 4 => z - Paeth(0, u, 0)
    case 5 => z
    case 6 => z
  }

  // The other pixels, with a left, u above and c above left
  function NextDiff(kind: nat, z: byte, a: byte, u: byte, c: byte): int
    requires 1 <= kind <= 6
  {
    match kind
    case 1 => z - a
    case 2 => z - u
    case 3 => z - (a + u) / 2
    case 4 => z - Paeth(a, u, c)
    case 5 => z - a / 2
    case 6 => z - Paeth(a, 0, 0)
  }

  // Whether a switch reads the row above
  predicate ReadsAbove(ltype: nat) {
    2 <= ltype <= 4
  }

  // The differences are the standard's, whether or not the row above is read.
  lemma FirstDiffRight(y: nat, kind: nat, z: byte, u: byte, above: byte)
    requires kind <= 4 && 1 <= LineType(y, kind) && (y == 0 ==> above == 0)
    requires ReadsAbove(LineType(y, kind)) ==> u == above
    ensures FirstDiff(LineType(y, kind), z, u) % 256 == (z - Predict(kind, 0, above, 0)) % 256
  {
  }

  lemma NextDiffRight(y: nat, kind: nat, z: byte, a: byte, u: byte, c: byte, above: byte, aboveLeft: byte)
    requires kind <= 4 && 1 <= LineType(y, kind) && (y == 0 ==> above == 0 && aboveLeft == 0)
    requires ReadsAbove(LineType(y, kind)) ==> u == above && c == aboveLeft
    ensures NextDiff(LineType(y, kind), z, a, u, c) % 256 == (z - Predict(kind, a, above, aboveLeft)) % 256
  {
  }

  lemma NoDiffRight(y: nat, kind: nat, z: byte, a: byte, u: byte, c: byte)
    requires kind <= 4 && LineType(y, kind) == 0 && (y == 0 ==> u == 0)
    ensures (z - Predict(kind, a, u, c)) % 256 == z
  {
  }

  ghost predicate LineDone(p: Pixels, y: nat, n: nat, kind: nat, line: seq<sbyte>, i: nat)
    requires p.Valid() && y < p.height && 1 <= n && kind <= 4 && i <= |line| == p.size
  {
    forall k | 0 <= k < i :: AsByte(line[k]) == FilteredByte(kind, p.Row(y), p.Above(y), n, k)
  }

  // stbiw__encode_png_line: the line buffer ends up holding the filtered row.
  method EncodeLine(p: Pixels, y: nat, n: nat, kind: nat, line: array<sbyte>)
    requires p.Valid() && y < p.height && 1 <= n <= p.size && kind <= 4 && line.Length == p.size
    modifies line
    ensures IsFiltered(kind, AsBytes(line[..]), p.Row(y), p.Above(y), n)
  {
    hide FilteredByte, FirstDiff, NextDiff, LineType;
    var ltype := LineType(y, kind);
    if ltype == 0 {
      CopyLine(p, y, n, kind, line);
    } else {
      LineTypeBound(y, kind);
      FirstPixel(p, y, n, kind, ltype, line);
      OtherPixels(p, y, n, kind, ltype, line);
    }
  }

  lemma LineSet(p: Pixels, y: nat, n: nat, kind: nat, line: seq<sbyte>, i: nat, v: sbyte)
    requires p.Valid() && y < p.height && 1 <= n && kind <= 4 && i < |line| == p.size
    requires LineDone(p, y, n, kind, line, i) && AsByte(v) == FilteredByte(kind, p.Row(y), p.Above(y), n, i)
    ensures LineDone(p, y, n, kind, line[i := v], i + 1)
  {
    hide FilteredByte, AsByte;
  }

  method CopyLine(p: Pixels, y: nat, n: nat, kind: nat, line: array<sbyte>)
    requires p.Valid() && y < p.height && 1 <= n && kind <= 4 && line.Length == p.size && LineType(y, kind) == 0
    modifies line
    ensures LineDone(p, y, n, kind, line[..], p.size)
  {
    hide FilteredByte, LineType;
    for i := 0 to p.size
      invariant LineDone(p, y, n, kind, line[..], i)
    {
      CopiedByte(p, y, n, kind, i);
      line[i] := SChar(p.mem[p.Start(y) + i]);
    }
  }

  // The first pixel has none to its left.
  method FirstPixel(p: Pixels, y: nat, n: nat, kind: nat, ltype: nat, line: array<sbyte>)
    requires p.Valid() && y < p.height && 1 <= n <= p.size && kind <= 4 && line.Length == p.size
    requires ltype == LineType(y, kind) && 1 <= ltype <= 6
    modifies line
    ensures LineDone(p, y, n, kind, line[..], n)
  {
    hide FilteredByte, FirstDiff, LineType, AsByte, SChar;
    if ReadsAbove(ltype) {
      AboveRead(p, y, kind);
    }
    var z := p.Start(y);
    for i := 0 to n
      invariant LineDone(p, y, n, kind, line[..], i)
    {
      var u := 0;
      if ReadsAbove(ltype) {
        u := p.mem[z + i - p.SignedStride()];
      }
      FirstByte(p, y, n, kind, i, u);
      line[i] := SChar(FirstDiff(ltype, p.mem[z + i], u));
    }
  }

  method OtherPixels(p: Pixels, y: nat, n: nat, kind: nat, ltype: nat, line: array<sbyte>)
    requires p.Valid() && y < p.height && 1 <= n <= p.size && kind <= 4 && line.Length == p.size
    requires ltype == LineType(y, kind) && 1 <= ltype <= 6 && LineDone(p, y, n, kind, line[..], n)
    modifies line
    ensures LineDone(p, y, n, kind, line[..], p.size)
  {
    hide FilteredByte, NextDiff, LineType, LineDone, AsByte, SChar;
    if ReadsAbove(ltype) {
      AboveRead(p, y, kind);
    }
    var z := p.Start(y);
    for i := n to p.size
      invariant LineDone(p, y, n, kind, line[..], i)
    {
      var u, c := 0, 0;
      if ReadsAbove(ltype) {
        u := p.mem[z + i - p.SignedStride()];
        c := p.mem[z + i - p.SignedStride() - n];
      }
      NextByte(p, y, n, kind, i, u, c);
      var v := SChar(NextDiff(ltype, p.mem[z + i], p.mem[z + i - n], u, c));
      LineSet(p, y, n, kind, line[..], i, v);
      ghost var before := line[..];
      line[i] := v;
      assert line[..] == before[i := v];
    }
  }

  lemma LineTypeBound(y: nat, kind: nat)
    requires kind <= 4
    ensures LineType(y, kind) <= 6
  {
  }

  // Only below the first row do the switches read the row above.
  lemma AboveRead(p: Pixels, y: nat, kind: nat)
    requires p.Valid() && y < p.height && kind <= 4 && ReadsAbove(LineType(y, kind))
    ensures y > 0 && p.Start(y) - p.SignedStride() == p.Start(y - 1)
  {
    p.StepUp(y);
  }

  lemma CopiedByte(p: Pixels, y: nat, n: nat, kind: nat, i: nat)
    requires p.Valid() && y < p.height && 1 <= n && kind <= 4 && i < p.size && LineType(y, kind) == 0
    ensures AsByte(SChar(p.mem[p.Start(y) + i])) == FilteredByte(kind, p.Row(y), p.Above(y), n, i)
  {
    hide Predict, LineType;
    var row, above := p.Row(y), p.Above(y);
    if y == 0 {
      ZerosAt(p.size, i);
    }
    CastKeepsByte(p.mem[p.Start(y) + i]);
    NoDiffRight(y, kind, row[i], Left(row, n, i), above[i], Left(above, n, i));
  }

  lemma FirstByte(p: Pixels, y: nat, n: nat, kind: nat, i: nat, u: byte)
    requires p.Valid() && y < p.height && 1 <= n && kind <= 4 && i < n <= p.size
    requires 1 <= LineType(y, kind) <= 6 && (ReadsAbove(LineType(y, kind)) ==> u == p.Above(y)[i])
    ensures AsByte(SChar(FirstDiff(LineType(y, kind), p.mem[p.Start(y) + i], u)))
         == FilteredByte(kind, p.Row(y), p.Above(y), n, i)
  {
    hide Predict, LineType, FirstDiff, Zeros;
    var row, above := p.Row(y), p.Above(y);
    if y == 0 {
      ZerosAt(p.size, i);
    }
    CastKeepsByte(FirstDiff(LineType(y, kind), row[i], u));
    FirstDiffRight(y, kind, row[i], u, above[i]);
  }

  lemma NextByte(p: Pixels, y: nat, n: nat, kind: nat, i: nat, u: byte, c: byte)
    requires p.Valid() && y < p.height && 1 <= n && kind <= 4 && n <= i < p.size
    requires 1 <= LineType(y, kind) <= 6
    requires ReadsAbove(LineType(y, kind)) ==> u == p.Above(y)[i] && c == p.Above(y)[i - n]
    ensures AsByte(SChar(NextDiff(LineType(y, kind), p.mem[p.Start(y) + i], p.mem[p.Start(y) + i - n], u, c)))
         == FilteredByte(kind, p.Row(y), p.Above(y), n, i)
  {
    hide Predict, LineType, NextDiff, Zeros;
    var row, above := p.Row(y), p.Above(y);
    if y == 0 {
      ZerosAt(p.size, i);
      ZerosAt(p.size, i - n);
    }
    CastKeepsByte(NextDiff(LineType(y, kind), row[i], row[i - n], u, c));
    NextDiffRight(y, kind, row[i], row[i - n], u, c, above[i], above[i - n]);
  }

  // ------------------------------------------------------------ choosing a filter

  // Sum of the magnitudes of the first i filtered bytes, read as signed
  function FilteredCost(p: Pixels, y: nat, n: nat, kind: nat, i: nat): nat
    requires p.Valid() && y < p.height && 1 <= n && kind <= 4 && i <= p.size
  {
    if i == 0 then 0
    else FilteredCost(p, y, n, kind, i - 1) + Abs(SChar(FilteredByte(kind, p.Row(y), p.Above(y), n, i - 1)))
  }

  lemma {:induction false} CostBound(p: Pixels, y: nat, n: nat, kind: nat, i: nat)
    requires p.Valid() && y < p.height && 1 <= n && kind <= 4 && i <= p.size
    ensures FilteredCost(p, y, n, kind, i) <= 128 * i
  {
    hide FilteredByte;
    if i == 0 {
    } else {
      CostBound(p, y, n, kind, i - 1);
    }
  }

  lemma SignedAgain(v: sbyte)
    ensures SChar(AsByte(v)) == v
  {
  }

  // The entropy estimate of a filtered line
  method LineCost(p: Pixels, y: nat, n: nat, kind: nat, line: array<sbyte>) returns (est: nat)
    requires p.Valid() && y < p.height && 1 <= n && kind <= 4 && line.Length == p.size
    requires IsFiltered(kind, AsBytes(line[..]), p.Row(y), p.Above(y), n)
    ensures est == FilteredCost(p, y, n, kind, p.size)
  {
    hide FilteredByte, SChar, AsByte, Abs;
    est := 0;
    for i := 0 to p.size
      invariant est == FilteredCost(p, y, n, kind, i)
    {
      SignedAgain(line[i]);
      assert AsBytes(line[..])[i] == AsByte(line[i]);
      est := est + Abs(line[i]);
    }
  }

  // No filter of the row has a lower cost than the given one.
  ghost predicate Cheapest(p: Pixels, y: nat, n: nat, kind: nat)
    requires p.Valid() && y < p.height && 1 <= n && kind <= 4
  {
    forall k: nat | k <= 4 :: FilteredCost(p, y, n, kind, p.size) <= FilteredCost(p, y, n, k, p.size)
  }

  // Fills the line buffer with the row under the forced filter, or under the
  // cheapest one when force names none.
  method FilterRow(p: Pixels, y: nat, n: nat, force: int, line: array<sbyte>) returns (kind: nat)
    requires p.Valid() && y < p.height && 1 <= n <= p.size && line.Length == p.size && force < 5
    modifies line
    ensures kind <= 4 && IsFiltered(kind, AsBytes(line[..]), p.Row(y), p.Above(y), n)
    ensures force >= 0 ==> kind == force
    ensures force < 0 && p.size <= 0xff_ffff ==> Cheapest(p, y, n, kind)
  {
    hide IsFiltered, FilteredCost, AsBytes;
    if force > -1 {
      EncodeLine(p, y, n, force, line);
      kind := force;
    } else {
      var bestVal := 0x7fff_ffff;
      kind := 0;
      for k := 0 to 5
        invariant kind <= 4 && (k == 0 ==> bestVal == 0x7fff_ffff)
        invariant p.size <= 0xff_ffff && k > 0 ==> bestVal == FilteredCost(p, y, n, kind, p.size)
        invariant p.size <= 0xff_ffff ==> forall j: nat | j < k :: bestVal <= FilteredCost(p, y, n, j, p.size)
      {
        EncodeLine(p, y, n, k, line);
        var est := LineCost(p, y, n, k, line);
        CostBound(p, y, n, k, p.size);
        if est < bestVal {
          bestVal := est;
          kind := k;
        }
      }
      EncodeLine(p, y, n, kind, line);
    }
  }

  // Stores the filter type and the line buffer at position at.
  method StoreRow(filt: array<byte>, at: nat, kind: byte, line: array<sbyte>)
    requires at + 1 + line.Length <= filt.Length
    modifies filt
    ensures filt[..at + 1 + line.Length] == old(filt[..at]) + ([kind] + AsBytes(line[..]))
  {
    hide AsByte;
    filt[at] := kind;
    for i := 0 to line.Length
      invariant filt[..at] == old(filt[..at]) && filt[at] == kind
      invariant filt[at + 1..at + 1 + i] == AsBytes(line[..])[..i]
    {
      assert AsBytes(line[..])[i] == AsByte(line[i]);
      filt[at + 1 + i] := AsByte(line[i]);
    }
    assert filt[at + 1..at + 1 + line.Length] == AsBytes(line[..]);
  }

  // Where row y of the filtered image starts
  function Offset(size1: nat, y: nat): nat {
    size1 * y
  }

  lemma NoOffset(size1: nat)
    ensures Offset(size1, 0) == 0
  {
  }

  // The filtered image: each row behind its filter type
  method FilterImage(p: Pixels, n: nat, force: int) returns (data: seq<byte>)
    requires p.Valid() && 1 <= n <= p.size && force < 5
    ensures IsFilteredImage(data, p.Rows(p.height), Zeros(p.size), p.size, n)
    ensures |data| == Offset(p.size + 1, p.height)
  {
    hide IsFilteredImage, IsFiltered, AsBytes, Zeros, Cheapest, FilteredCost, Offset;
    var size1 := p.size + 1;
    var filt := new byte[Offset(size1, p.height)](_ => 0);
    var line := new sbyte[p.size](_ => 0);
    NoRows(Zeros(p.size), p.size, n);
    NoOffset(size1);
    assert p.Rows(0) == [];
    for y := 0 to p.height
      invariant fresh(filt) && fresh(line)
      invariant 0 <= Offset(size1, y) <= filt.Length
      invariant IsFilteredImage(filt[..Offset(size1, y)], p.Rows(y), Zeros(p.size), p.size, n)
    {
      var kind := FilterRow(p, y, n, force, line);
      RowFits(size1, y, p.height);
      FilteredImageStep(p, y, n, filt[..Offset(size1, y)], kind, AsBytes(line[..]));
      StoreRow(filt, Offset(size1, y), kind, line);
    }
    data := filt[..];
    assert filt[..Offset(size1, p.height)] == filt[..];
  }

  lemma FilteredImageStep(p: Pixels, y: nat, n: nat, data: seq<byte>, kind: byte, line: seq<byte>)
    requires p.Valid() && y < p.height && 1 <= n <= p.size
    requires IsFilteredImage(data, p.Rows(y), Zeros(p.size), p.size, n)
    requires IsFiltered(kind, line, p.Row(y), p.Above(y), n)
    ensures IsFilteredImage(data + ([kind] + line), p.Rows(y + 1), Zeros(p.size), p.size, n)
  {
    hide IsFilteredImage, IsFiltered, Zeros, Prior;
    PriorRow(p, y);
    FilteredImagePush(data, p.Rows(y), Zeros(p.size), p.size, n, kind, line, p.Row(y));
  }

  lemma RowFits(size1: nat, y: nat, height: nat)
    requires y < height
    ensures Offset(size1, y + 1) == Offset(size1, y) + size1 <= Offset(size1, height)
  {
    assert size1 * (y + 1) <= size1 * height;
  }

  lemma NoRows(above: seq<byte>, size: nat, n: nat)
    ensures IsFilteredImage([], [], above, size, n)
  {
  }

  lemma PriorRow(p: Pixels, y: nat)
    requires p.Valid() && y < p.height
    ensures p.Above(y) == Prior(p.Rows(y), Zeros(p.size))
    ensures p.Rows(y + 1) == p.Rows(y) + [p.Row(y)]
  {
  }

  // --------------------------------------------------------------------- framing

  // Copies s into the output at o and steps past it.
  method Put(out: array<byte>, o: nat, s: seq<byte>) returns (o': nat)
    requires o + |s| <= out.Length
    modifies out
    ensures o' == o + |s| && out[..o'] == old(out[..o]) + s
  {
    for i := 0 to |s|
      invariant out[..o] == old(out[..o]) && out[o..o + i] == s[..i]
    {
      out[o + i] := s[i];
    }
    o' := o + |s|;
  }

  // stbiw__wpcrc: the CRC over the len bytes of data and the type before them
  method PutCrc(out: array<byte>, o: nat, len: nat) returns (o': nat)
    requires len + 4 <= o && o + 4 <= out.Length
    modifies out
    ensures o' == o + 4 && out[..o'] == old(out[..o]) + BigEndian32(Crc32(old(out[o - len - 4..o])))
  {
    hide Crc32, BigEndian32;
    var crc := TableCrc(out[o - len - 4..o]);
    o' := Put(out, o, BigEndian32(crc));
  }

  method PutChunk(out: array<byte>, o: nat, kind: seq<byte>, data: seq<byte>) returns (o': nat)
    requires |kind| == 4 && |data| < 0x1_0000_0000 && o + 12 + |data| <= out.Length
    modifies out
    ensures o' == o + 12 + |data| && out[..o'] == old(out[..o]) + ChunkBytes(kind, data)
  {
    hide Crc32, BigEndian32;
    ghost var before := out[..o];
    o' := Put(out, o, BigEndian32(|data|));
    o' := Put(out, o', kind);
    o' := Put(out, o', data);
    assert out[..o'] == before + BigEndian32(|data|) + kind + data;
    assert out[o' - |data| - 4..o'] == out[..o'][o' - |data| - 4..] == kind + data;
    o' := PutCrc(out, o', |data|);
    assert out[..o'] == before + ChunkBytes(kind, data);
  }

  const IHDR: seq<byte> := [73, 72, 68, 82]
  const IDAT: seq<byte> := [73, 68, 65, 84]
  const IEND: seq<byte> := [73, 69, 78, 68]

  lemma ChunkTypes()
    ensures |IHDR| == |IDAT| == |IEND| == 4
    ensures TypeOf(IHDR) == "IHDR" && TypeOf(IDAT) == "IDAT" && TypeOf(IEND) == "IEND"
  {
  }

  // Colour type of each number of channels
  function ColourType(n: nat): byte
    requires 1 <= n <= 4
  {
    match n case 1 => 0 case 2 => 4 case 3 => 2 case 4 => 6
  }

  function HeaderData(x: nat, y: nat, n: nat): (h: seq<byte>)
    requires x < 0x8000_0000 && y < 0x8000_0000 && 1 <= n <= 4
    ensures |h| == 13
  {
    BigEndian32(x) + BigEndian32(y) + [8, ColourType(n), 0, 0, 0]
  }

  lemma KindsDiffer()
    ensures "IHDR" != "IEND" && "IDAT" != "IEND"
  {
    assert "IHDR"[1] != "IEND"[1] && "IDAT"[1] != "IEND"[1];
  }

  lemma ThreeChunks(h: seq<byte>, z: seq<byte>)
    requires |h| == 13 && |z| < 0x8000_0000 && |IHDR| == |IDAT| == |IEND| == 4
    ensures ReadChunks(ChunkBytes(IHDR, h) + (ChunkBytes(IDAT, z) + ChunkBytes(IEND, [])))
         == Some([Chunk("IHDR", h), Chunk("IDAT", z), Chunk("IEND", [])])
  {
    hide ChunkBytes, IHDR, IDAT, IEND, TypeOf, ReadChunks;
    ChunkTypes();
    KindsDiffer();
    var last := ChunkBytes(IEND, []);
    var a, b, c := Chunk("IHDR", h), Chunk("IDAT", z), Chunk("IEND", []);
    assert last == last + [];
    ReadChunkStep(IEND, [], []);
    assert ReadChunks(last) == Some([c]);
    ReadChunkStep(IDAT, z, last);
    assert [b] + [c] == [b, c];
    assert ReadChunks(ChunkBytes(IDAT, z) + last) == Some([b, c]);
    ReadChunkStep(IHDR, h, ChunkBytes(IDAT, z) + last);
    assert [a] + [b, c] == [a, b, c];
  }

  lemma OneDataChunk(z: seq<byte>)
    ensures ImageData([Chunk("IDAT", z), Chunk("IEND", [])]) == Some(z)
  {
    var b, c := Chunk("IDAT", z), Chunk("IEND", []);
    assert [b, c][1..] == [c];
    assert z + [] == z;
  }

  // A datastream of the three chunks decodes to the image in its data.
  lemma DatastreamDecodes(s: seq<byte>, h: seq<byte>, z: seq<byte>)
    requires |h| == 13 && |z| < 0x8000_0000 && |IHDR| == |IDAT| == |IEND| == 4
    requires s == SIGNATURE + (ChunkBytes(IHDR, h) + (ChunkBytes(IDAT, z) + ChunkBytes(IEND, [])))
    ensures DecodePng(s) == HeaderImage(h, z)
  {
    hide HeaderImage, ChunkBytes, IHDR, IDAT, IEND, TypeOf, ReadChunks, ImageData;
    assert s[..8] == SIGNATURE;
    assert s[8..] == ChunkBytes(IHDR, h) + (ChunkBytes(IDAT, z) + ChunkBytes(IEND, []));
    ThreeChunks(h, z);
    OneDataChunk(z);
    var chunks := [Chunk("IHDR", h), Chunk("IDAT", z), Chunk("IEND", [])];
    assert chunks[1..] == [Chunk("IDAT", z), Chunk("IEND", [])];
  }

  lemma HeaderDecodes(p: Pixels, x: nat, n: nat, z: seq<byte>, data: seq<byte>)
    requires p.Valid() && 1 <= x < 0x8000_0000 && p.height < 0x8000_0000 && 1 <= n <= 4 && p.size == RowSize(x, n)
    requires IsFilteredImage(data, p.Rows(p.height), Zeros(p.size), p.size, n)
    requires p.height > 0 ==> Decode(z) == Some(data)
    ensures HeaderImage(HeaderData(x, p.height, n), z)
         == if p.height == 0 then None else Some(Image(x, p.height, n, p.Rows(p.height)))
  {
    hide Decode, IsFilteredImage, UnfilterRows, Zeros, BigEndian32, FromBigEndian32, RowSize;
    var h := HeaderData(x, p.height, n);
    assert h[..4] == BigEndian32(x) && h[4..8] == BigEndian32(p.height);
    assert h[8] == 8 && h[9] == ColourType(n) && h[10..] == [0, 0, 0];
    BigEndianRoundTrip(x);
    BigEndianRoundTrip(p.height);
    UnfilterRowsFiltered(data, p.Rows(p.height), Zeros(p.size), p.size, n);
  }

  // The sizes that stbi_write_png_to_mem computes in int
  predicate FitsInt(size1: nat, height: nat) {
    Offset(size1, height) + 63 + (Offset(size1, height) + 32766) / 32767 * 5 < 0x8000_0000
  }

  lemma HeightFits(size1: nat, height: nat)
    requires FitsInt(size1, height) && size1 >= 1
    ensures height < 0x8000_0000 && (height > 0 ==> Offset(size1, height) > 0)
  {
    assert size1 * height >= height;
  }

  // The row is what the memory holds at the given place.
  predicate Holds(mem: seq<byte>, at: int, row: seq<byte>, size: nat) {
    0 <= at && at + size <= |mem| && row == mem[at..at + size]
  }

  method Compressed(filt: seq<byte>, level: int) returns (zlib: seq<byte>)
    ensures Decode(zlib) == if filt == [] then None else Some(filt)
    ensures |zlib| <= |filt| + 6 + (|filt| + 32766) / 32767 * 5
  {
    hide Decode, ZlibWriter.FixedForm;
    ghost var fixed, ts;
    zlib, fixed, ts := ZlibWriter.Compress(filt, level);
  }

  // stbi_write_png_to_mem: a PNG reader recovers every image with rows, under any
  // filter choice. The first row of the memory is the top one, or the bottom one
  // when it is flipped.
  method WritePng(mem: seq<byte>, pixels: nat, strideBytes: int, x: nat, y: nat, n: nat, force: int, level: int, flip: bool)
    returns (png: seq<byte>)
    requires 1 <= x < 0x8000_0000 && 1 <= n <= 4 && FitsInt(RowSize(x, n) + 1, y)
    requires y > 0 ==> var s := if strideBytes == 0 then x * n else strideBytes;
                       pixels + x * n <= |mem| && 0 <= pixels + s * (y - 1) <= |mem| - x * n
    ensures if y == 0 then DecodePng(png).None?
            else DecodePng(png).Some? && var image := DecodePng(png).value;
                 image.width == x && image.height == y && image.channels == n && |image.rows| == y
    ensures y > 0 ==> var s := if strideBytes == 0 then x * n else strideBytes;
            forall r: nat | r < y ::
              Holds(mem, pixels + s * (if flip then y - 1 - r else r), DecodePng(png).value.rows[r], x * n)
    ensures |png| >= 33 && png[..8] == [137, 80, 78, 71, 13, 10, 26, 10]
    ensures png[8..16] == [0, 0, 0, 13, 73, 72, 68, 82]
    ensures x == 0x100_0000 * png[16] as int + 0x1_0000 * png[17] as int + 0x100 * png[18] as int + png[19] as int
    ensures y == 0x100_0000 * png[20] as int + 0x1_0000 * png[21] as int + 0x100 * png[22] as int + png[23] as int
    ensures png[24..29] == [8, if n == 1 then 0 else if n == 2 then 4 else if n == 3 then 2 else 6, 0, 0, 0]
  {
    hide DecodePng, ChunkBytes, HeaderImage, Decode, IsFilteredImage, Zeros, HeaderData, Offset, SIGNATURE, IHDR, IDAT, IEND;
    var p := Layout(mem, pixels, strideBytes, x, y, n, flip);
    RowHolds(x, n);
    HeightFits(p.size + 1, y);
    ChunkTypes();
    var filt := FilterImage(p, n, if force >= 5 then -1 else force);
    var zlib := Compressed(filt, level);
    png := Frame(HeaderData(x, y, n), zlib);
    DatastreamDecodes(png, HeaderData(x, y, n), zlib);
    HeaderDecodes(p, x, n, zlib, filt);
    HeaderBytes(png, x, y, n, zlib);
    forall r: nat | r < y
      ensures Holds(mem, pixels + p.stride * (if flip then y - 1 - r else r), p.Rows(y)[r], x * n)
    {
      RowInMemory(p, r);
    }
  }

  lemma RowInMemory(p: Pixels, r: nat)
    requires p.Valid() && r < p.height
    ensures Holds(p.mem, p.base + p.stride * (if p.flip then p.height - 1 - r else r), p.Rows(p.height)[r], p.size)
  {
    p.RowsAt(p.height, r);
    Between(p.stride, if p.flip then p.height - 1 - r else r, p.height - 1);
  }

  // Where the parts of the header lie in the file
  lemma HeaderBytes(png: seq<byte>, x: nat, y: nat, n: nat, z: seq<byte>)
    requires x < 0x8000_0000 && y < 0x8000_0000 && 1 <= n <= 4
    requires |z| < 0x8000_0000 && |IHDR| == |IDAT| == |IEND| == 4
    requires png == SIGNATURE + (ChunkBytes(IHDR, HeaderData(x, y, n)) + (ChunkBytes(IDAT, z) + ChunkBytes(IEND, [])))
    ensures |png| >= 33 && png[..8] == [137, 80, 78, 71, 13, 10, 26, 10]
    ensures png[8..16] == [0, 0, 0, 13, 73, 72, 68, 82]
    ensures png[16..20] == BigEndian32(x) && png[20..24] == BigEndian32(y)
    ensures png[24..29] == [8, if n == 1 then 0 else if n == 2 then 4 else if n == 3 then 2 else 6, 0, 0, 0]
  {
    var h := HeaderData(x, y, n);
    var c, rest := ChunkBytes(IHDR, h), ChunkBytes(IDAT, z) + ChunkBytes(IEND, []);
    HeaderChunk(h);
    HeaderParts(x, y, n);
    hide ChunkBytes, HeaderData, BigEndian32;
    assert |SIGNATURE| == 8 && png[..8] == SIGNATURE;
    assert png[8..29] == c[..21];
    assert png[8..16] == c[..8] && png[16..29] == c[8..21] == h;
    assert png[16..20] == h[..4] && png[20..24] == h[4..8] && png[24..29] == h[8..];
  }

  lemma HeaderChunk(h: seq<byte>)
    requires |h| == 13 && |IHDR| == 4
    ensures |ChunkBytes(IHDR, h)| == 25
    ensures ChunkBytes(IHDR, h)[..8] == [0, 0, 0, 13, 73, 72, 68, 82] && ChunkBytes(IHDR, h)[8..21] == h
  {
    hide Crc32;
    assert BigEndian32(13) == [0, 0, 0, 13];
  }

  lemma HeaderParts(x: nat, y: nat, n: nat)
    requires x < 0x8000_0000 && y < 0x8000_0000 && 1 <= n <= 4
    ensures var h := HeaderData(x, y, n);
            && h[..4] == BigEndian32(x) && h[4..8] == BigEndian32(y)
            && h[8..] == [8, if n == 1 then 0 else if n == 2 then 4 else if n == 3 then 2 else 6, 0, 0, 0]
  {
    hide BigEndian32;
  }

  // The caller's memory, with the index of the pixels in it; a stride of zero
  // means rows without gaps, a negative one rows at lower and lower addresses.
  function Layout(mem: seq<byte>, pixels: nat, strideBytes: int, x: nat, y: nat, n: nat, flip: bool): Pixels {
    Pixels(mem, pixels, if strideBytes == 0 then RowSize(x, n) else strideBytes, RowSize(x, n), y, flip)
  }

  lemma RowHolds(x: nat, n: nat)
    requires x >= 1
    ensures RowSize(x, n) >= n
  {
    assert x * n >= 1 * n;
  }

  // Signature and chunks, filling the buffer exactly
  method Frame(h: seq<byte>, zlib: seq<byte>) returns (png: seq<byte>)
    requires |h| == 13 && |zlib| < 0x8000_0000 && |IHDR| == |IDAT| == |IEND| == 4
    ensures png == SIGNATURE + (ChunkBytes(IHDR, h) + (ChunkBytes(IDAT, zlib) + ChunkBytes(IEND, [])))
    ensures |png| == 8 + 12 + 13 + 12 + |zlib| + 12
  {
    hide ChunkBytes, IHDR, IDAT, IEND;
    var out := new byte[8 + 12 + 13 + 12 + |zlib| + 12](_ => 0);
    assert |SIGNATURE| == 8;
    var o := Put(out, 0, SIGNATURE);
    o := PutChunk(out, o, IHDR, h);
    o := PutChunk(out, o, IDAT, zlib);
    o := PutChunk(out, o, IEND, []);
    assert o == out.Length;
    png := out[..];
    assert png == out[..o];
  }
}
