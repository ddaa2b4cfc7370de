/** The PNG format (W3C Portable Network Graphics specification): scanline
    filters, chunks, and a reference decoder for 8-bit images without
    palette or interlacing. */
module Png {
  import opened Bits
  import opened Crc
  import opened Options
  import opened Zlib

  // ------------------------------------------------------------------- filters

  function Abs(x: int): nat {
    if x < 0 then -x else x
  }

  function Distance(v: int, w: int): nat {
    if v <= w then w - v else v - w
  }

  // Section 9.4: the neighbour nearest to a + b - c, of equally near ones the first
  // of left, above and above left
  function Paeth(a: byte, b: byte, c: byte): (r: byte)
    ensures r in [a, b, c]
    ensures forall v | v in [a, b, c] :: Distance(r, a + b - c) <= Distance(v, a + b - c)
    ensures Distance(a, a + b - c) == Distance(r, a + b - c) ==> r == a
    ensures r != a && Distance(b, a + b - c) == Distance(r, a + b - c) ==> r == b
  {
    var p := a + b - c;
    var pa, pb, pc := Abs(p - a), Abs(p - b), Abs(p - c);
    if pa <= pb && pa <= pc then a else if pb <= pc then b else c
  }

  // What filter kind predicts for a byte with a to its left, b above and c
  // above left (section 9.2)
  function Predict(kind: nat, a: byte, b: byte, c: byte): byte
    requires kind <= 4
  {
    match kind
    case 0 => 0
    case 1 => a
    case 2 => b
    case 3 => (a + b) / 2
    case 4 => Paeth(a, b, c)
  }

  // The byte bpp before position i, 0 beyond the edge
  function Left(row: seq<byte>, bpp: nat, i: nat): byte
    requires 1 <= bpp && i < |row| + bpp
  {
    if i < bpp then 0 else row[i - bpp]
  }

  // The first i bytes of a row rebuilt from its filtered bytes; prior is the
  // row above, all zeros for the first row.
  function Unfilter(kind: nat, line: seq<byte>, prior: seq<byte>, bpp: nat, i: nat): (row: seq<byte>)
    requires kind <= 4 && 1 <= bpp && i <= |line| == |prior|
    ensures |row| == i
  {
    if i == 0 then []
    else
      var row := Unfilter(kind, line, prior, bpp, i - 1);
      row + [(line[i - 1] + Predict(kind, Left(row, bpp, i - 1), prior[i - 1], Left(prior, bpp, i - 1))) % 256]
  }

  // The filtered form of byte i of a row (section 9.2)
  function FilteredByte(kind: nat, row: seq<byte>, prior: seq<byte>, bpp: nat, i: nat): byte
    requires kind <= 4 && 1 <= bpp && i < |row| == |prior|
  {
    (row[i] - Predict(kind, Left(row, bpp, i), prior[i], Left(prior, bpp, i))) % 256
  }

  ghost predicate IsFiltered(kind: nat, line: seq<byte>, row: seq<byte>, prior: seq<byte>, bpp: nat) {
    && kind <= 4 && 1 <= bpp && |line| == |row| == |prior|
    && forall i | 0 <= i < |row| :: line[i] == FilteredByte(kind, row, prior, bpp, i)
  }

  // The five filters in terms of the bytes of the row and of the one above, zero
  // outside of the image (section 9.2)
  lemma FilterFormulas(row: seq<byte>, prior: seq<byte>, bpp: nat, i: nat)
    requires 1 <= bpp && i < |row| == |prior|
    ensures var a, b := if i < bpp then 0 else row[i - bpp], prior[i];
            var c := if i < bpp then 0 else prior[i - bpp];
            && FilteredByte(0, row, prior, bpp, i) == row[i]
            && FilteredByte(1, row, prior, bpp, i) == (row[i] as int - a as int) % 256
            && FilteredByte(2, row, prior, bpp, i) == (row[i] as int - b as int) % 256
            && FilteredByte(3, row, prior, bpp, i) == (row[i] as int - (a as int + b as int) / 2) % 256
            && FilteredByte(4, row, prior, bpp, i) == (row[i] as int - Paeth(a, b, c) as int) % 256
  {
    hide Paeth;
  }

  // Reconstruction undoes every filter.
  lemma {:induction false} UnfilterFiltered(kind: nat, line: seq<byte>, row: seq<byte>, prior: seq<byte>, bpp: nat, i: nat)
    requires IsFiltered(kind, line, row, prior, bpp) && i <= |row|
    ensures Unfilter(kind, line, prior, bpp, i) == row[..i]
  {
    hide Predict;
    if i == 0 {
    } else {
      UnfilterFiltered(kind, line, row, prior, bpp, i - 1);
      assert Left(row[..i - 1], bpp, i - 1) == Left(row, bpp, i - 1);
      assert row[..i - 1] + [row[i - 1]] == row[..i];
    }
  }

  function Zeros(n: nat): (s: seq<byte>)
    ensures |s| == n
  {
    if n == 0 then [] else Zeros(n - 1) + [0]
  }

  // Rebuilds the rows of a filtered image of size bytes a row.
  function UnfilterRows(data: seq<byte>, size: nat, bpp: nat, prior: seq<byte>): Option<seq<seq<byte>>>
    requires 1 <= bpp && |prior| == size
    decreases |data|
  {
    if data == [] then Some([])
    else if |data| < size + 1 || data[0] > 4 then None
    else
      var row := Unfilter(data[0], data[1..size + 1], prior, bpp, size);
      match UnfilterRows(data[size + 1..], size, bpp, row)
      case None => None
      case Some(rows) => Some([row] + rows)
  }

  // The row above the first row to come, when the given rows have been passed
  function Prior(rows: seq<seq<byte>>, above: seq<byte>): seq<byte> {
    if rows == [] then above else rows[|rows| - 1]
  }

  // data holds the rows, each behind its filter type and filtered against the
  // row before it.
  ghost predicate IsFilteredImage(data: seq<byte>, rows: seq<seq<byte>>, above: seq<byte>, size: nat, bpp: nat)
    decreases |rows|
  {
    if rows == [] then data == []
    else
      && |data| >= size + 1 && |rows[0]| == size
      && IsFiltered(data[0], data[1..size + 1], rows[0], above, bpp)
      && IsFilteredImage(data[size + 1..], rows[1..], rows[0], size, bpp)
  }

  lemma {:induction false} UnfilterRowsFiltered(data: seq<byte>, rows: seq<seq<byte>>, above: seq<byte>, size: nat, bpp: nat)
    requires 1 <= bpp && |above| == size && IsFilteredImage(data, rows, above, size, bpp)
    ensures UnfilterRows(data, size, bpp, above) == Some(rows)
    decreases |rows|
  {
    hide IsFiltered, Unfilter;
    if rows == [] {
    } else {
      FilterTypeOk(data[0], data[1..size + 1], rows[0], above, bpp);
      UnfilterFiltered(data[0], data[1..size + 1], rows[0], above, bpp, size);
      assert rows[0][..size] == rows[0];
      UnfilterRowsFiltered(data[size + 1..], rows[1..], rows[0], size, bpp);
      assert [rows[0]] + rows[1..] == rows;
    }
  }

  lemma FilterTypeOk(kind: nat, line: seq<byte>, row: seq<byte>, prior: seq<byte>, bpp: nat)
    requires IsFiltered(kind, line, row, prior, bpp)
    ensures kind <= 4
  {
  }

  lemma {:induction false} FilteredImagePush(data: seq<byte>, rows: seq<seq<byte>>, above: seq<byte>, size: nat, bpp: nat,
                                             kind: byte, line: seq<byte>, row: seq<byte>)
    requires 1 <= bpp && |above| == |row| == size && IsFilteredImage(data, rows, above, size, bpp)
    requires IsFiltered(kind, line, row, Prior(rows, above), bpp)
    ensures IsFilteredImage(data + ([kind] + line), rows + [row], above, size, bpp)
    decreases |rows|
  {
    var data', rows' := data + ([kind] + line), rows + [row];
    var size1 := size + 1;
    hide IsFiltered, Prior;
    FilteredSize(kind, line, row, Prior(rows, above), bpp);
    PriorRest(rows, above);
    if rows == [] {
      assert data' == [kind] + line && rows' == [row];
      assert data'[1..size1] == line && data'[size1..] == [] && rows'[1..] == [];
    } else {
      FilteredImagePush(data[size1..], rows[1..], rows[0], size, bpp, kind, line, row);
      assert data'[1..size1] == data[1..size1] && data'[size1..] == data[size1..] + ([kind] + line);
      assert rows'[1..] == rows[1..] + [row];
    }
  }

  lemma PriorRest(rows: seq<seq<byte>>, above: seq<byte>)
    ensures rows == [] ==> Prior(rows, above) == above
    ensures rows != [] ==> Prior(rows, above) == Prior(rows[1..], rows[0])
  {
  }

  lemma FilteredSize(kind: nat, line: seq<byte>, row: seq<byte>, prior: seq<byte>, bpp: nat)
    requires IsFiltered(kind, line, row, prior, bpp)
    ensures |line| == |row|
  {
  }

  // -------------------------------------------------------------------- chunks

  datatype Chunk = Chunk(kind: string, data: seq<byte>)

  function BigEndian32(v: nat): (s: seq<byte>)
    requires v < 0x1_0000_0000
    ensures |s| == 4
    ensures v == 0x100_0000 * s[0] as int + 0x1_0000 * s[1] as int + 0x100 * s[2] as int + s[3] as int
  {
    [v / 256 / 256 / 256, v / 256 / 256 % 256, v / 256 % 256, v % 256]
  }

  function FromBigEndian32(s: seq<byte>): nat
    requires |s| == 4
  {
    0x100_0000 * (s[0] as int) + 0x1_0000 * (s[1] as int) + 0x100 * (s[2] as int) + s[3]
  }

  lemma BigEndianRoundTrip(v: nat)
    requires v < 0x1_0000_0000
    ensures FromBigEndian32(BigEndian32(v)) == v
  {
  }

  // A chunk type is four ASCII letters.
  function TypeOf(s: seq<byte>): (t: string)
    requires |s| == 4
  {
    [s[0] as char, s[1] as char, s[2] as char, s[3] as char]
  }

  // Length, type, data and CRC, the last over type and data (section 5.3)
  function ChunkBytes(kind: seq<byte>, data: seq<byte>): seq<byte>
    requires |kind| == 4 && |data| < 0x1_0000_0000
  {
    BigEndian32(|data|) + (kind + data) + BigEndian32(Crc32(kind + data))
  }

  // The chunks of a datastream up to IEND, which must end it
  function ReadChunks(s: seq<byte>): Option<seq<Chunk>>
    decreases |s|
  {
    if |s| < 12 then None
    else
      var len := FromBigEndian32(s[..4]);
      if |s| < 12 + len || s[8 + len..12 + len] != BigEndian32(Crc32(s[4..8 + len])) then None
      else
        var chunk, rest := Chunk(TypeOf(s[4..8]), s[8..8 + len]), s[12 + len..];
        if chunk.kind == "IEND" then (if rest == [] && chunk.data == [] then Some([chunk]) else None)
        else
          match ReadChunks(rest)
          case None => None
          case Some(chunks) => Some([chunk] + chunks)
  }

  lemma ReadChunkStep(kind: seq<byte>, data: seq<byte>, rest: seq<byte>)
    requires |kind| == 4 && |data| < 0x1_0000_0000
    ensures ReadChunks(ChunkBytes(kind, data) + rest)
         == var chunk := Chunk(TypeOf(kind), data);
            if chunk.kind == "IEND" then (if rest == [] && data == [] then Some([chunk]) else None)
            else match ReadChunks(rest) case None => None case Some(chunks) => Some([chunk] + chunks)
  {
    hide Crc32, BigEndian32, FromBigEndian32, TypeOf;
    var s, len := ChunkBytes(kind, data) + rest, |data|;
    BigEndianRoundTrip(len);
    assert s[..4] == BigEndian32(len);
    assert s[4..8] == kind && s[8..8 + len] == data && s[4..8 + len] == kind + data;
    assert s[8 + len..12 + len] == BigEndian32(Crc32(kind + data));
    assert s[12 + len..] == rest;
  }

  // ----------------------------------------------------------------- the image

  datatype Image = Image(width: nat, height: nat, channels: nat, rows: seq<seq<byte>>)

  // Samples per pixel of each colour type (table 11.1), 0 for the others
  function Channels(colour: byte): nat {
    match colour
    case 0 => 1
    case 2 => 3
    case 4 => 2
    case 6 => 4
    case _ => 0
  }

  function ImageData(chunks: seq<Chunk>): Option<seq<byte>> {
    if |chunks| == 0 then None
    else if |chunks| == 1 then (if chunks[0].kind == "IEND" then Some([]) else None)
    else if chunks[0].kind != "IDAT" then None
    else
      match ImageData(chunks[1..])
      case None => None
      case Some(data) => Some(chunks[0].data + data)
  }

  const SIGNATURE: seq<byte> := [137, 80, 78, 71, 13, 10, 26, 10]

  // Bytes of a row of width pixels
  function RowSize(width: nat, n: nat): nat {
    width * n
  }

  function FilteredImage(width: nat, height: nat, n: nat, filtered: seq<byte>): Option<Image>
    requires 1 <= n
  {
    match UnfilterRows(filtered, RowSize(width, n), n, Zeros(RowSize(width, n)))
    case None => None
    case Some(rows) => if |rows| == height then Some(Image(width, height, n, rows)) else None
  }

  function HeaderImage(h: seq<byte>, data: seq<byte>): Option<Image>
    requires |h| == 13
  {
    var width, height, n := FromBigEndian32(h[..4]), FromBigEndian32(h[4..8]), Channels(h[9]);
    if width == 0 || height == 0 || h[8] != 8 || n == 0 || h[10..] != [0, 0, 0] then None
    else
      match Decode(data)
      case None => None
      case Some(filtered) => FilteredImage(width, height, n, filtered)
  }

  function DecodePng(s: seq<byte>): Option<Image> {
    if |s| < 8 || s[..8] != SIGNATURE then None
    else
      match ReadChunks(s[8..])
      case None => None
      case Some(chunks) =>
        if |chunks| == 0 || chunks[0].kind != "IHDR" || |chunks[0].data| != 13 then None
        else
          match ImageData(chunks[1..])
          case None => None
          case Some(data) => HeaderImage(chunks[0].data, data)
  }
}
