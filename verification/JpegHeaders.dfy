/** The headers that `stbi_write_jpg_core` writes, and what a JPEG reader makes of
    them. */
module JpegHeaders {
  import opened Bits
  import opened Jpeg
  import opened JpegReader
  import opened JpegTables
  import opened JpegWriter
  import opened Options

  // ------------------------------------------------------------ the lists as bytes

  // Rows of 16 and a last one
  function Flat(rows: seq<seq<byte>>): seq<byte> {
    if rows == [] then [] else rows[0] + Flat(rows[1..])
  }

  ghost predicate RowsOf16(rows: seq<seq<byte>>) {
    forall j | 0 <= j < |rows| - 1 :: |rows[j]| == 16
  }

  lemma {:induction false} FlatAt(rows: seq<seq<byte>>, j: nat, i: nat)
    requires RowsOf16(rows) && j < |rows| && i < |rows[j]|
    ensures 16 * j + i < |Flat(rows)| && Flat(rows)[16 * j + i] == rows[j][i]
    decreases j
  {
    if j > 0 {
      FlatAt(rows[1..], j - 1, i);
    }
  }

  lemma {:induction false} FlatSize(rows: seq<seq<byte>>)
    requires RowsOf16(rows) && rows != []
    ensures |Flat(rows)| == 16 * (|rows| - 1) + |rows[|rows| - 1]|
    decreases |rows|
  {
    if |rows| == 1 {
      assert rows[1..] == [];
    } else {
      FlatSize(rows[1..]);
    }
  }

  lemma SumStep(s: seq<byte>, i: nat)
    requires i < |s|
    ensures Sum(s[i..]) == s[i] as nat + Sum(s[i + 1..])
  {
    assert s[i..][1..] == s[i + 1..];
  }

  lemma SumSixteen(s: seq<byte>)
    requires |s| == 16
    ensures Sum(s) == s[0] as nat + s[1] as nat + s[2] as nat + s[3] as nat + s[4] as nat + s[5] as nat + s[6] as nat
                      + s[7] as nat + s[8] as nat + s[9] as nat + s[10] as nat + s[11] as nat + s[12] as nat
                      + s[13] as nat + s[14] as nat + s[15] as nat
  {
    hide Sum;
    assert s == s[0..];
    SumStep(s, 0);
    SumStep(s, 1);
    SumStep(s, 2);
    SumStep(s, 3);
    SumStep(s, 4);
    SumStep(s, 5);
    SumStep(s, 6);
    SumStep(s, 7);
    SumStep(s, 8);
    SumStep(s, 9);
    SumStep(s, 10);
    SumStep(s, 11);
    SumStep(s, 12);
    SumStep(s, 13);
    SumStep(s, 14);
    SumStep(s, 15);
    NoSum();
    assert s[16..] == [];
  }

  lemma NoSum()
    ensures Sum([]) == 0
  {
  }

  const YAC_ROWS: seq<seq<byte>> :=
    [YAC_VALUES0, YAC_VALUES1, YAC_VALUES2, YAC_VALUES3, YAC_VALUES4, YAC_VALUES5, YAC_VALUES6, YAC_VALUES7,
     YAC_VALUES8, YAC_VALUES9, YAC_VALUES10]

  const UVAC_ROWS: seq<seq<byte>> :=
    [UVAC_VALUES0, UVAC_VALUES1, UVAC_VALUES2, UVAC_VALUES3, UVAC_VALUES4, UVAC_VALUES5, UVAC_VALUES6, UVAC_VALUES7,
     UVAC_VALUES8, UVAC_VALUES9, UVAC_VALUES10]

  const YDC_LIST: List := List(YDC_COUNT, YDC_VALUES0)
  const YAC_LIST: List := List(YAC_COUNT, Flat(YAC_ROWS))
  const UVDC_LIST: List := List(UVDC_COUNT, UVDC_VALUES0)
  const UVAC_LIST: List := List(UVAC_COUNT, Flat(UVAC_ROWS))

  lemma YACRowSizes()
    ensures RowsOf16(YAC_ROWS) && |YAC_ROWS| == 11 && |YAC_ROWS[10]| == 2
  {
  }

  lemma YACSum()
    ensures |YAC_COUNT| == 16 && Sum(YAC_COUNT) == 162
  {
    hide Sum;
    SumSixteen(YAC_COUNT);
  }

  lemma YACSize()
    ensures |YAC_LIST.count| == 16 && |YAC_LIST.value| == 162 == Sum(YAC_LIST.count)
  {
    hide YAC_ROWS, YAC_COUNT, Flat, RowsOf16, Sum;
    YACRowSizes();
    FlatSize(YAC_ROWS);
    YACSum();
  }

  lemma YACRowValue(k: nat)
    requires k < 162
    ensures k / 16 < |YAC_ROWS| && k % 16 < |YAC_ROWS[k / 16]| && YAC_ROWS[k / 16][k % 16] == YACValue(k)
  {
    YACRowSizes();
  }

  lemma YACSame()
    ensures SameDht(SPEC.yac, DhtOf(YAC_LIST))
  {
    hide YAC_ROWS, YAC_COUNT, Flat, RowsOf16, Sum, YACValue;
    YACSize();
    YACRowSizes();
    forall k: nat ensures SPEC.yac.value(k) == DhtOf(YAC_LIST).value(k) {
      if k < 162 {
        YACRowValue(k);
        FlatAt(YAC_ROWS, k / 16, k % 16);
      } else {
        YACBeyond(k);
      }
    }
  }

  lemma YACBeyond(k: nat)
    requires k >= 162
    ensures YACValue(k) == 0
  {
    YACRowSizes();
  }

  lemma UVACRowSizes()
    ensures RowsOf16(UVAC_ROWS) && |UVAC_ROWS| == 11 && |UVAC_ROWS[10]| == 2
  {
  }

  lemma UVACSum()
    ensures |UVAC_COUNT| == 16 && Sum(UVAC_COUNT) == 162
  {
    hide Sum;
    SumSixteen(UVAC_COUNT);
  }

  lemma UVACSize()
    ensures |UVAC_LIST.count| == 16 && |UVAC_LIST.value| == 162 == Sum(UVAC_LIST.count)
  {
    hide UVAC_ROWS, UVAC_COUNT, Flat, RowsOf16, Sum;
    UVACRowSizes();
    FlatSize(UVAC_ROWS);
    UVACSum();
  }

  lemma UVACRowValue(k: nat)
    requires k < 162
    ensures k / 16 < |UVAC_ROWS| && k % 16 < |UVAC_ROWS[k / 16]| && UVAC_ROWS[k / 16][k % 16] == UVACValue(k)
  {
    UVACRowSizes();
  }

  lemma UVACSame()
    ensures SameDht(SPEC.uvac, DhtOf(UVAC_LIST))
  {
    hide UVAC_ROWS, UVAC_COUNT, Flat, RowsOf16, Sum, UVACValue;
    UVACSize();
    UVACRowSizes();
    forall k: nat ensures SPEC.uvac.value(k) == DhtOf(UVAC_LIST).value(k) {
      if k < 162 {
        UVACRowValue(k);
        FlatAt(UVAC_ROWS, k / 16, k % 16);
      } else {
        UVACBeyond(k);
      }
    }
  }

  lemma UVACBeyond(k: nat)
    requires k >= 162
    ensures UVACValue(k) == 0
  {
    UVACRowSizes();
  }

  lemma DcSums()
    ensures |YDC_COUNT| == |UVDC_COUNT| == 16 && |YDC_VALUES0| == |UVDC_VALUES0| == 12
    ensures Sum(YDC_COUNT) == 12 && Sum(UVDC_COUNT) == 12
  {
    hide Sum;
    SumSixteen(YDC_COUNT);
    SumSixteen(UVDC_COUNT);
  }

  lemma DcSame()
    ensures SameDht(SPEC.ydc, DhtOf(YDC_LIST)) && SameDht(SPEC.uvdc, DhtOf(UVDC_LIST))
  {
    forall k: nat
      ensures SPEC.ydc.value(k) == DhtOf(YDC_LIST).value(k) && SPEC.uvdc.value(k) == DhtOf(UVDC_LIST).value(k)
    {
      assert k / 16 == 0 <==> k < 16;
    }
  }

  // ---------------------------------------------------------------------- headers

  // The literals head0, head1 and head2
  const HEAD0: seq<byte> :=
    [0xFF, 0xD8, 0xFF, 0xE0, 0, 0x10, 0x4A, 0x46, 0x49, 0x46, 0, 1, 1, 0, 0, 1, 0, 1, 0, 0, 0xFF, 0xDB, 0, 0x84, 0]

  function Head1(width: nat, height: nat, subsample: bool): seq<byte> {
    [0xFF, 0xC0, 0, 0x11, 8, height / 256 % 256, height % 256, width / 256 % 256, width % 256,
     3, 1, if subsample then 0x22 else 0x11, 0, 2, 0x11, 1, 3, 0x11, 1, 0xFF, 0xC4, 0x01, 0xA2, 0]
  }

  const HEAD2: seq<byte> := [0xFF, 0xDA, 0, 0xC, 3, 1, 0, 2, 0x11, 3, 0x11, 0, 0x3F, 0]

  // ------------------------------------------------- what a reader makes of them

  const APP0: seq<byte> := [0x4A, 0x46, 0x49, 0x46, 0, 1, 1, 0, 0, 1, 0, 1, 0, 0]

  function Sof(width: nat, height: nat, subsample: bool): seq<byte> {
    [8, height / 256 % 256, height % 256, width / 256 % 256, width % 256,
     3, 1, if subsample then 0x22 else 0x11, 0, 2, 0x11, 1, 3, 0x11, 1]
  }

  const SOS: seq<byte> := [3, 1, 0, 2, 0x11, 3, 0x11, 0, 0x3F, 0]

  // The frame says which sampling factors and quantization table each component has.
  function FrameOf(width: nat, height: nat, subsample: bool): Frame {
    var f := if subsample then 2 else 1;
    Frame(height % 65536, width % 65536, [Part(1, f, f, 0), Part(2, 1, 1, 1), Part(3, 1, 1, 1)])
  }

  function HeadersOf(width: nat, height: nat, subsample: bool, yTable: seq<byte>, uvTable: seq<byte>): Headers {
    Headers(map[0 := yTable, 1 := uvTable], Some(FrameOf(width, height, subsample)),
            map[0 := YDC_LIST, 1 := UVDC_LIST], map[0 := YAC_LIST, 1 := UVAC_LIST])
  }

  ghost predicate HeadersRead(s: seq<byte>, rest: seq<byte>, width: nat, height: nat, subsample: bool,
                              yTable: seq<byte>, uvTable: seq<byte>) {
    Decode(s + rest) == ReadImage(SOS, rest, HeadersOf(width, height, subsample, yTable, uvTable))
  }

  lemma SofRead(width: nat, height: nat, subsample: bool)
    ensures ReadFrame(Sof(width, height, subsample)) == Some(FrameOf(width, height, subsample))
  {
    hide ReadParts, Word;
    var p := Sof(width, height, subsample);
    SofWords(width, height, subsample);
    SofParts(width, height, subsample);
  }

  lemma SofWords(width: nat, height: nat, subsample: bool)
    ensures var p := Sof(width, height, subsample); Word(p, 1) == height % 65536 && Word(p, 3) == width % 65536
  {
    TwoBytes(width);
    TwoBytes(height);
  }

  lemma TwoBytes(n: nat)
    ensures n / 256 % 256 * 256 + n % 256 == n % 65536
  {
    assert n == n / 65536 * 65536 + n % 65536;
    assert n / 256 == n / 65536 * 256 + n % 65536 / 256;
  }

  lemma SofParts(width: nat, height: nat, subsample: bool)
    ensures ReadParts(Sof(width, height, subsample)[6..]) == FrameOf(width, height, subsample).parts
  {
    var p := Sof(width, height, subsample);
    assert ReadParts(p[15..]) == [];
    assert p[12..][3..] == p[15..];
    assert ReadParts(p[12..]) == [Part(3, 1, 1, 1)];
    assert p[9..][3..] == p[12..];
    assert ReadParts(p[9..]) == [Part(2, 1, 1, 1)] + ReadParts(p[12..]);
    assert p[6..][3..] == p[9..];
  }

  lemma QuantsRead(yTable: seq<byte>, uvTable: seq<byte>)
    requires |yTable| == |uvTable| == 64
    ensures ReadQuant([0] + yTable + ([1] + uvTable), map[]) == Some(map[0 := yTable, 1 := uvTable])
  {
    hide ReadQuant;
    QuantRead(0, yTable, [1] + uvTable, map[]);
    assert [1] + uvTable == [1] + uvTable + [];
    QuantRead(1, uvTable, [], map[0 := yTable]);
    NoQuant(map[0 := yTable][1 := uvTable]);
    assert map[0 := yTable][1 := uvTable] == map[0 := yTable, 1 := uvTable];
  }

  lemma NoQuant(q: map<nat, seq<byte>>)
    ensures ReadQuant([], q) == Some(q)
  {
  }

  function ListBytes(info: byte, l: List): seq<byte> {
    [info] + l.count + l.value
  }

  function Dhts(): seq<byte> {
    ListBytes(0, YDC_LIST) + (ListBytes(0x10, YAC_LIST) + (ListBytes(1, UVDC_LIST) + ListBytes(0x11, UVAC_LIST)))
  }

  lemma NoLists(hd: Headers)
    ensures ReadLists([], hd) == Some(hd)
  {
  }

  lemma DhtsRead(hd: Headers)
    requires hd.dc == map[] && hd.ac == map[]
    ensures ReadLists(Dhts(), hd)
         == Some(hd.(dc := map[0 := YDC_LIST, 1 := UVDC_LIST], ac := map[0 := YAC_LIST, 1 := UVAC_LIST]))
  {
    hide ReadLists, YDC_LIST, YAC_LIST, UVDC_LIST, UVAC_LIST, Sum;
    YACSize();
    UVACSize();
    DcSizes();
    var d := ListBytes(0x11, UVAC_LIST);
    var c := ListBytes(1, UVDC_LIST) + d;
    var b := ListBytes(0x10, YAC_LIST) + c;
    var h1 := hd.(dc := map[0 := YDC_LIST]);
    var h2 := h1.(ac := map[0 := YAC_LIST]);
    var h3 := h2.(dc := map[0 := YDC_LIST, 1 := UVDC_LIST]);
    ListRead(0, YDC_LIST, b, hd);
    ListRead(0x10, YAC_LIST, c, h1);
    ListRead(1, UVDC_LIST, d, h2);
    assert d + [] == d;
    ListRead(0x11, UVAC_LIST, [], h3);
    NoLists(h3.(ac := map[0 := YAC_LIST, 1 := UVAC_LIST]));
  }

  lemma DcSizes()
    ensures |YDC_LIST.count| == |UVDC_LIST.count| == 16
    ensures |YDC_LIST.value| == Sum(YDC_LIST.count) == |UVDC_LIST.value| == Sum(UVDC_LIST.count) == 12
  {
    hide Sum;
    DcSums();
  }

  // The headers as segments
  function Form(width: nat, height: nat, subsample: bool, yTable: seq<byte>, uvTable: seq<byte>, rest: seq<byte>): seq<byte>
    requires |yTable| == |uvTable| == 64
  {
    DhtsSize();
    [0xFF, 0xD8] + (Segment(0xE0, APP0) + (Segment(0xDB, [0] + yTable + ([1] + uvTable))
      + (Segment(0xC0, Sof(width, height, subsample)) + (Segment(0xC4, Dhts()) + (Segment(0xDA, SOS) + rest)))))
  }

  lemma DhtsSize()
    ensures |Dhts()| == 416
  {
    hide YDC_LIST, YAC_LIST, UVDC_LIST, UVAC_LIST, Sum;
    YACSize();
    UVACSize();
    DcSizes();
  }

  lemma FormRead(width: nat, height: nat, subsample: bool, yTable: seq<byte>, uvTable: seq<byte>, rest: seq<byte>)
    requires |yTable| == |uvTable| == 64
    ensures Decode(Form(width, height, subsample, yTable, uvTable, rest))
         == ReadImage(SOS, rest, HeadersOf(width, height, subsample, yTable, uvTable))
  {
    hide ReadSegments, ReadImage, Segment, ReadQuant, ReadLists, ReadFrame, Dhts, Sof, FrameOf;
    DhtsSize();
    SofSize(width, height, subsample);
    var e := Segment(0xDA, SOS) + rest;
    var d := Segment(0xC4, Dhts()) + e;
    var c := Segment(0xC0, Sof(width, height, subsample)) + d;
    var b := Segment(0xDB, [0] + yTable + ([1] + uvTable)) + c;
    var a := Segment(0xE0, APP0) + b;
    var s := [0xFF, 0xD8] + a;
    assert s[..2] == [0xFF, 0xD8] && s[2..] == a;
    SegmentApplied(0xE0, APP0, b, NOTHING);
    QuantsRead(yTable, uvTable);
    var h1 := NOTHING.(quant := map[0 := yTable, 1 := uvTable]);
    SegmentApplied(0xDB, [0] + yTable + ([1] + uvTable), c, NOTHING);
    SofRead(width, height, subsample);
    var h2 := h1.(frame := Some(FrameOf(width, height, subsample)));
    SegmentApplied(0xC0, Sof(width, height, subsample), d, h1);
    DhtsRead(h2);
    var h3 := h2.(dc := map[0 := YDC_LIST, 1 := UVDC_LIST], ac := map[0 := YAC_LIST, 1 := UVAC_LIST]);
    SegmentApplied(0xC4, Dhts(), e, h2);
    ScanRead(SOS, rest, h3);
  }

  lemma SofSize(width: nat, height: nat, subsample: bool)
    ensures |Sof(width, height, subsample)| == 15
  {
  }

  // -------------------------------------------------------------- what is written

  lemma Assoc(r: seq<byte>, s: seq<byte>, t: seq<byte>)
    ensures (r + s) + t == r + (s + t)
  {
  }

  lemma AppendList(s: seq<byte>, info: byte, l: List)
    ensures s + [info] + l.count + l.value == s + ListBytes(info, l)
  {
    Assoc(s, [info], l.count);
    Assoc(s, [info] + l.count, l.value);
  }

  lemma FourLists(s: seq<byte>, a: seq<byte>, b: seq<byte>, c: seq<byte>, d: seq<byte>)
    ensures s + a + b + c + d == s + (a + (b + (c + d)))
  {
    Assoc(s + a + b, c, d);
    Assoc(s + a, b, c + d);
    Assoc(s, a, b + (c + d));
  }

  // The first segments up to the one of the Huffman tables
  function FrontOf(width: nat, height: nat, subsample: bool, yTable: seq<byte>, uvTable: seq<byte>): seq<byte> {
    HEAD0 + yTable + [1] + uvTable + Head1(width, height, subsample)
  }

  lemma FrontForm(width: nat, height: nat, subsample: bool, yTable: seq<byte>, uvTable: seq<byte>)
    requires |yTable| == |uvTable| == 64
    ensures FrontOf(width, height, subsample, yTable, uvTable)
         == [0xFF, 0xD8] + Segment(0xE0, APP0) + Segment(0xDB, [0] + yTable + ([1] + uvTable))
            + Segment(0xC0, Sof(width, height, subsample)) + [0xFF, 0xC4, 0x01, 0xA2] + [0]
  {
    assert HEAD0 == [0xFF, 0xD8] + Segment(0xE0, APP0) + [0xFF, 0xDB, 0, 0x84] + [0];
    var e, f := [0xFF, 0xD8] + Segment(0xE0, APP0), [0xFF, 0xDB, 0, 0x84];
    hide Segment;
    QuantSegment(yTable, uvTable);
    Assoc(e + f, [0], yTable);
    Assoc(e + f + ([0] + yTable), [1], uvTable);
    Assoc(e + f, [0] + yTable, [1] + uvTable);
    Assoc(e, f, [0] + yTable + ([1] + uvTable));
    Head1Form(width, height, subsample);
    var g, h := HEAD0 + yTable + [1] + uvTable, Segment(0xC0, Sof(width, height, subsample));
    Assoc(g, h + [0xFF, 0xC4, 0x01, 0xA2], [0]);
    Assoc(g, h, [0xFF, 0xC4, 0x01, 0xA2]);
  }

  lemma QuantSegment(yTable: seq<byte>, uvTable: seq<byte>)
    requires |yTable| == |uvTable| == 64
    ensures Segment(0xDB, [0] + yTable + ([1] + uvTable)) == [0xFF, 0xDB, 0, 0x84] + ([0] + yTable + ([1] + uvTable))
  {
  }

  lemma Head1Form(width: nat, height: nat, subsample: bool)
    ensures Head1(width, height, subsample)
         == Segment(0xC0, Sof(width, height, subsample)) + [0xFF, 0xC4, 0x01, 0xA2] + [0]
  {
  }

  lemma DhtSegment()
    ensures |Dhts()| == 416 && Segment(0xC4, Dhts()) == [0xFF, 0xC4, 0x01, 0xA2] + Dhts()
  {
    hide Dhts;
    DhtsSize();
  }

  lemma SosSegment()
    ensures HEAD2 == Segment(0xDA, SOS)
  {
  }

  lemma SixParts(a: seq<byte>, b: seq<byte>, c: seq<byte>, d: seq<byte>, e: seq<byte>, f: seq<byte>, rest: seq<byte>)
    ensures a + b + c + d + e + f + rest == a + (b + (c + (d + (e + (f + rest)))))
  {
    Assoc(a + b + c + d + e, f, rest);
    Assoc(a + b + c + d, e, f + rest);
    FourLists(a, b, c, d, e + (f + rest));
    Assoc(a + b + c, d, e + (f + rest));
  }

  // The front, the lists in their order and head2 are the headers as segments.
  lemma WrittenForm(width: nat, height: nat, subsample: bool, yTable: seq<byte>, uvTable: seq<byte>, rest: seq<byte>)
    requires |yTable| == |uvTable| == 64
    ensures FrontOf(width, height, subsample, yTable, uvTable)
            + YDC_LIST.count + YDC_LIST.value + [0x10] + YAC_LIST.count + YAC_LIST.value
            + [1] + UVDC_LIST.count + UVDC_LIST.value + [0x11] + UVAC_LIST.count + UVAC_LIST.value + HEAD2 + rest
         == Form(width, height, subsample, yTable, uvTable, rest)
  {
    hide FrontOf, Segment, ListBytes, YDC_LIST, YAC_LIST, UVDC_LIST, UVAC_LIST, HEAD2, SOS, APP0, Sof;
    FrontForm(width, height, subsample, yTable, uvTable);
    DhtSegment();
    SosSegment();
    var q := [0] + yTable + ([1] + uvTable);
    SofSize(width, height, subsample);
    App0Size();
    var x := [0xFF, 0xD8] + Segment(0xE0, APP0) + Segment(0xDB, q) + Segment(0xC0, Sof(width, height, subsample));
    var t := [0xFF, 0xC4, 0x01, 0xA2];
    var a, b, c, d := ListBytes(0, YDC_LIST), ListBytes(0x10, YAC_LIST), ListBytes(1, UVDC_LIST), ListBytes(0x11, UVAC_LIST);
    AppendList(x + t, 0, YDC_LIST);
    AppendList(x + t + a, 0x10, YAC_LIST);
    AppendList(x + t + a + b, 1, UVDC_LIST);
    AppendList(x + t + a + b + c, 0x11, UVAC_LIST);
    FourLists(x + t, a, b, c, d);
    Assoc(x, t, Dhts());
    SixParts([0xFF, 0xD8], Segment(0xE0, APP0), Segment(0xDB, q), Segment(0xC0, Sof(width, height, subsample)),
             Segment(0xC4, Dhts()), Segment(0xDA, SOS), rest);
  }

  lemma App0Size()
    ensures |APP0| == 14 && |SOS| == 10
  {
  }

  // The headers of the file: a reader of it that goes on behind them knows the
  // sizes, the tables and which of them each component uses.
  method WriteHeaders(width: nat, height: nat, subsample: bool, yTable: seq<byte>, uvTable: seq<byte>)
    returns (s: seq<byte>)
    requires |yTable| == |uvTable| == 64
    ensures forall rest :: HeadersRead(s, rest, width, height, subsample, yTable, uvTable)
  {
    hide HeadersRead, HEAD0, Head1, HEAD2, YDC_LIST, YAC_LIST, UVDC_LIST, UVAC_LIST;
    s := HEAD0;
    s := s + yTable;
    s := s + [1];
    s := s + uvTable;
    s := s + Head1(width, height, subsample);
    s := s + YDC_LIST.count;
    s := s + YDC_LIST.value;
    s := s + [0x10];
    s := s + YAC_LIST.count;
    s := s + YAC_LIST.value;
    s := s + [1];
    s := s + UVDC_LIST.count;
    s := s + UVDC_LIST.value;
    s := s + [0x11];
    s := s + UVAC_LIST.count;
    s := s + UVAC_LIST.value;
    s := s + HEAD2;
    forall rest ensures HeadersRead(s, rest, width, height, subsample, yTable, uvTable) {
      WrittenRead(s, width, height, subsample, yTable, uvTable, rest);
    }
  }

  lemma WrittenRead(s: seq<byte>, width: nat, height: nat, subsample: bool, yTable: seq<byte>, uvTable: seq<byte>,
                    rest: seq<byte>)
    requires |yTable| == |uvTable| == 64
    requires s == FrontOf(width, height, subsample, yTable, uvTable)
            + YDC_LIST.count + YDC_LIST.value + [0x10] + YAC_LIST.count + YAC_LIST.value
            + [1] + UVDC_LIST.count + UVDC_LIST.value + [0x11] + UVAC_LIST.count + UVAC_LIST.value + HEAD2
    ensures HeadersRead(s, rest, width, height, subsample, yTable, uvTable)
  {
    hide FrontOf, YDC_LIST, YAC_LIST, UVDC_LIST, UVAC_LIST, HEAD2, Form, Decode, ReadImage, HeadersOf, SOS;
    WrittenForm(width, height, subsample, yTable, uvTable, rest);
    FormRead(width, height, subsample, yTable, uvTable, rest);
  }
}
