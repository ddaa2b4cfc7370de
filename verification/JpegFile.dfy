/** `stbi_write_jpg_core` from the quantized blocks on: its macroblock loops, and
    what a JPEG reader makes of the whole file. */
module JpegFile {
  import opened Bits
  import opened Jpeg
  import opened JpegHeaders
  import opened JpegReader
  import opened JpegTables
  import opened JpegWriter
  import opened Options

  // ----------------------------------------------------- the order of the blocks

  // The components of one macroblock's blocks
  function Macro(subsample: bool): seq<nat> {
    if subsample then [0, 0, 0, 0, 1, 2] else [0, 1, 2]
  }

  // The width and height of a macroblock
  function Side(subsample: bool): nat {
    if subsample then 16 else 8
  }

  // How often a loop runs whose counter goes from n up to size
  function Runs(n: nat, size: nat, step: nat): nat
    requires step > 0
    decreases size - n
  {
    if n >= size then 0 else 1 + Runs(n + step, size, step)
  }

  lemma {:induction false} RunsAre(n: nat, size: nat, step: nat)
    requires step == 8 || step == 16
    ensures Runs(n, size, step) == if n >= size then 0 else CeilDiv(size - n, step)
    decreases size - n
  {
    if n < size {
      RunsAre(n + step, size, step);
      OneLess(size - n, step);
    }
  }

  lemma OneLess(n: nat, step: nat)
    requires 0 < n && (step == 8 || step == 16)
    ensures CeilDiv(n, step) == 1 + if n <= step then 0 else CeilDiv(n - step, step)
  {
    if step == 8 {
      assert (n + 7) / 8 == 1 + (n - 1) / 8;
    } else {
      assert (n + 15) / 16 == 1 + (n - 1) / 16;
    }
  }

  function Macroblocks(width: nat, height: nat, subsample: bool): nat {
    CeilDiv(height, Side(subsample)) * CeilDiv(width, Side(subsample))
  }

  // A block in each place
  function Placed(units: seq<seq<int>>, comps: seq<nat>): (r: seq<Block>)
    requires |units| == |comps|
    ensures |r| == |units| && forall i | 0 <= i < |r| :: r[i] == Block(comps[i], units[i])
  {
    seq(|units|, i requires 0 <= i < |units| => Block(comps[i], units[i]))
  }

  lemma {:induction false} TimesSize(s: seq<nat>, n: nat)
    ensures |Times(s, n)| == |s| * n
  {
    if n == 0 {
    } else {
      TimesSize(s, n - 1);
      assert |s| * n == |s| + |s| * (n - 1);
    }
  }

  lemma {:induction false} TimesAt(s: seq<nat>, n: nat, i: nat)
    requires i < |s| * n && (|s| == 3 || |s| == 6)
    ensures |Times(s, n)| == |s| * n && Times(s, n)[i] == s[i % |s|]
    decreases n
  {
    TimesSize(s, n);
    if n == 0 {
    } else if i >= |s| {
      assert |s| * n == |s| + |s| * (n - 1);
      TimesAt(s, n - 1, i - |s|);
      assert i == (i - |s|) + |s|;
      ModStep(i - |s|, |s|);
    } else {
      assert i % |s| == i;
    }
  }

  lemma ModStep(a: nat, b: nat)
    requires b == 3 || b == 6
    ensures (a + b) % b == a % b
  {
    if b == 3 {
      assert (a + 3) % 3 == a % 3;
    } else {
      assert (a + 6) % 6 == a % 6;
    }
  }

  lemma {:induction false} ComponentsAre(blocks: seq<Block>)
    ensures |Components(blocks)| == |blocks|
    ensures forall i | 0 <= i < |blocks| :: Components(blocks)[i] == blocks[i].comp
  {
    if blocks == [] {
    } else {
      ComponentsAre(blocks[1..]);
    }
  }

  // ------------------------------------------------------------------- the loops

  // The bits written and those of the blocks to come make up the whole scan.
  ghost predicate Going(sink: BitSink, rest: seq<Block>, preds: seq<int>, total: seq<bit>)
    reads sink
  {
    && sink.Valid() && |preds| == 3 && ScanInRange(rest, preds)
    && sink.Bits() + ScanBits(rest, preds, TABLES) == total
  }

  lemma NextBlock(sink: BitSink, rest: seq<Block>, preds: seq<int>, total: seq<bit>)
    requires Going(sink, rest, preds, total) && rest != []
    ensures var Block(comp, du) := rest[0];
            && comp < 3 && BlockInRange(du, preds[comp]) && |du| == 64
            && ScanInRange(rest[1..], preds[comp := du[0]])
            && sink.Bits() + BlockBits(du, preds[comp], TABLES.Dc(comp), TABLES.Ac(comp))
               + ScanBits(rest[1..], preds[comp := du[0]], TABLES) == total
  {
    hide BitSink.Valid, BitSink.Bits, BlockBits, BlockInRange, TABLES;
    var Block(comp, du) := rest[0];
    BlockSize(du, preds[comp]);
    ScanStep(rest, preds, TABLES);
    ConcatAssoc(sink.Bits(), BlockBits(du, preds[comp], TABLES.Dc(comp), TABLES.Ac(comp)),
                ScanBits(rest[1..], preds[comp := du[0]], TABLES));
  }

  // The last DC values after one more block
  function NextDc(comp: nat, y: int, u: int, v: int, dc: int): seq<int> {
    if comp == 0 then [dc, u, v] else if comp == 1 then [y, dc, v] else [y, u, dc]
  }

  // The call of stbiw__jpg_processDU for block j of those to come
  method EncodeBlock(sink: BitSink, du: seq<int>, pred: int, dc: Table, ac: Table, ghost comp: nat, ghost j: nat,
                     ghost rest: seq<Block>, ghost y: int, ghost u: int, ghost v: int, ghost total: seq<bit>, ghost d: Spec)
    returns (dcValue: int)
    requires j < |rest| && Going(sink, rest[j..], [y, u, v], total) && rest[j] == Block(comp, du) && comp < 3
    requires pred == [y, u, v][comp] && dc == TABLES.Dc(comp) && ac == TABLES.Ac(comp) && Agree(TABLES, d)
    modifies sink
    ensures Going(sink, rest[j + 1..], NextDc(comp, y, u, v, dcValue), total)
  {
    hide BitSink.Valid, BitSink.Bits, BlockBits, BlockInRange, DcTable, AcTable, TABLES, ScanInRange, ScanBits;
    NextBlock(sink, rest[j..], [y, u, v], total);
    assert rest[j..][1..] == rest[j + 1..];
    assert [y, u, v][comp := du[0]] == NextDc(comp, y, u, v, du[0]);
    dcValue := ProcessDu(sink, du, pred, dc, ac, d.dc[comp], d.ac[comp]);
  }

  // What comes next is a macroblock of these units.
  ghost predicate MacroNext(rest: seq<Block>, units: seq<seq<int>>, k: nat, subsample: bool) {
    && |Macro(subsample)| <= |rest| && k + |Macro(subsample)| <= |units|
    && forall j | 0 <= j < |Macro(subsample)| :: rest[j] == Block(Macro(subsample)[j], units[k + j])
  }

  // Four luminance blocks and one of each chrominance
  method EncodeSubsampled(sink: BitSink, units: seq<seq<int>>, k: nat, dcY: int, dcU: int, dcV: int,
                          ghost rest: seq<Block>, ghost total: seq<bit>, ghost d: Spec)
    returns (dcY': int, dcU': int, dcV': int)
    requires Going(sink, rest, [dcY, dcU, dcV], total) && MacroNext(rest, units, k, true) && Agree(TABLES, d)
    modifies sink
    ensures Going(sink, rest[6..], [dcY', dcU', dcV'], total)
  {
    hide Going, Agree, TABLES;
    assert rest[0..] == rest;
    dcY', dcU', dcV' := dcY, dcU, dcV;
    dcY' := EncodeBlock(sink, units[k], dcY', TABLES.ydc, TABLES.yac, 0, 0, rest, dcY', dcU', dcV', total, d);
    dcY' := EncodeBlock(sink, units[k + 1], dcY', TABLES.ydc, TABLES.yac, 0, 1, rest, dcY', dcU', dcV', total, d);
    dcY' := EncodeBlock(sink, units[k + 2], dcY', TABLES.ydc, TABLES.yac, 0, 2, rest, dcY', dcU', dcV', total, d);
    dcY' := EncodeBlock(sink, units[k + 3], dcY', TABLES.ydc, TABLES.yac, 0, 3, rest, dcY', dcU', dcV', total, d);
    dcU' := EncodeBlock(sink, units[k + 4], dcU', TABLES.uvdc, TABLES.uvac, 1, 4, rest, dcY', dcU', dcV', total, d);
    dcV' := EncodeBlock(sink, units[k + 5], dcV', TABLES.uvdc, TABLES.uvac, 2, 5, rest, dcY', dcU', dcV', total, d);
  }

  // One block of each component
  method EncodeFull(sink: BitSink, units: seq<seq<int>>, k: nat, dcY: int, dcU: int, dcV: int,
                    ghost rest: seq<Block>, ghost total: seq<bit>, ghost d: Spec)
    returns (dcY': int, dcU': int, dcV': int)
    requires Going(sink, rest, [dcY, dcU, dcV], total) && MacroNext(rest, units, k, false) && Agree(TABLES, d)
    modifies sink
    ensures Going(sink, rest[3..], [dcY', dcU', dcV'], total)
  {
    hide Going, Agree, TABLES;
    assert rest[0..] == rest;
    dcY', dcU', dcV' := dcY, dcU, dcV;
    dcY' := EncodeBlock(sink, units[k], dcY', TABLES.ydc, TABLES.yac, 0, 0, rest, dcY', dcU', dcV', total, d);
    dcU' := EncodeBlock(sink, units[k + 1], dcU', TABLES.uvdc, TABLES.uvac, 1, 1, rest, dcY', dcU', dcV', total, d);
    dcV' := EncodeBlock(sink, units[k + 2], dcV', TABLES.uvdc, TABLES.uvac, 2, 2, rest, dcY', dcU', dcV', total, d);
  }

  // Every block is one of the units, in the component its place says.
  ghost predicate InPlace(blocks: seq<Block>, units: seq<seq<int>>, subsample: bool) {
    && |blocks| == |units|
    && forall i | 0 <= i < |blocks| :: blocks[i] == Block(Macro(subsample)[i % |Macro(subsample)|], units[i])
  }

  // From unit k on there are so many macroblocks.
  predicate Ahead(k: nat, subsample: bool, macros: nat, units: nat) {
    k % |Macro(subsample)| == 0 && k + |Macro(subsample)| * macros == units
  }

  lemma AheadNext(blocks: seq<Block>, units: seq<seq<int>>, k: nat, subsample: bool, macros: nat)
    requires InPlace(blocks, units, subsample) && Ahead(k, subsample, macros, |units|) && macros > 0
    ensures Ahead(k + |Macro(subsample)|, subsample, macros - 1, |units|)
    ensures k + |Macro(subsample)| <= |blocks| && MacroNext(blocks[k..], units, k, subsample)
    ensures blocks[k..][|Macro(subsample)|..] == blocks[k + |Macro(subsample)|..]
  {
    var n := |Macro(subsample)|;
    AheadLess(k, subsample, macros, |units|);
    hide Macro;
    forall j | 0 <= j < n
      ensures blocks[k..][j] == Block(Macro(subsample)[j], units[k + j])
    {
      Within(k, n, j);
      assert blocks[k..][j] == blocks[k + j];
    }
  }

  lemma AheadLess(k: nat, subsample: bool, macros: nat, units: nat)
    requires Ahead(k, subsample, macros, units) && macros > 0
    ensures var n := |Macro(subsample)|;
            (n == 3 || n == 6) && k % n == 0 && Ahead(k + n, subsample, macros - 1, units) && k + n <= units
  {
    if subsample {
      Within(k, 6, 0);
    } else {
      Within(k, 3, 0);
    }
  }

  lemma Within(k: nat, n: nat, j: nat)
    requires (n == 3 || n == 6) && k % n == 0 && j < n
    ensures (k + n) % n == 0 && (k + j) % n == j
  {
    if n == 6 {
      assert k % 6 == 0;
      assert (k + j) % 6 == j;
    } else {
      assert k % 3 == 0;
      assert (k + j) % 3 == j;
    }
  }

  // The inner loop: a row of macroblocks
  method EncodeRow(sink: BitSink, units: seq<seq<int>>, width: nat, subsample: bool, start: nat, y: int, u: int, v: int,
                   ghost blocks: seq<Block>, ghost more: nat, ghost total: seq<bit>, ghost d: Spec)
    returns (k: nat, dcY: int, dcU: int, dcV: int)
    requires InPlace(blocks, units, subsample) && Agree(TABLES, d) && start <= |blocks|
    requires Ahead(start, subsample, Runs(0, width, Side(subsample)) + more, |units|)
    requires Going(sink, blocks[start..], [y, u, v], total)
    modifies sink
    ensures k <= |blocks| && Ahead(k, subsample, more, |units|)
    ensures Going(sink, blocks[k..], [dcY, dcU, dcV], total)
  {
    hide Going, Agree, TABLES, InPlace, Ahead, MacroNext, Runs;
    k, dcY, dcU, dcV := start, y, u, v;
    var x := 0;
    while x < width
      invariant k <= |blocks| && Ahead(k, subsample, Runs(x, width, Side(subsample)) + more, |units|)
      invariant Going(sink, blocks[k..], [dcY, dcU, dcV], total)
      decreases width - x
    {
      RunsNext(x, width, Side(subsample));
      AheadNext(blocks, units, k, subsample, Runs(x, width, Side(subsample)) + more);
      if subsample {
        dcY, dcU, dcV := EncodeSubsampled(sink, units, k, dcY, dcU, dcV, blocks[k..], total, d);
        k := k + 6;
      } else {
        dcY, dcU, dcV := EncodeFull(sink, units, k, dcY, dcU, dcV, blocks[k..], total, d);
        k := k + 3;
      }
      x := x + Side(subsample);
    }
    RunsOver(x, width, Side(subsample));
  }

  lemma RunsNext(n: nat, size: nat, step: nat)
    requires n < size && step > 0
    ensures Runs(n, size, step) == 1 + Runs(n + step, size, step)
  {
  }

  lemma RunsOver(n: nat, size: nat, step: nat)
    requires n >= size && step > 0
    ensures Runs(n, size, step) == 0
  {
  }

  lemma RowsNext(y: nat, height: nat, step: nat, across: nat)
    requires y < height && step > 0
    ensures Runs(y, height, step) * across == across + Runs(y + step, height, step) * across
  {
    RunsNext(y, height, step);
    OneMore(Runs(y + step, height, step), across);
  }

  lemma OneMore(a: nat, b: nat)
    ensures (1 + a) * b == b + a * b
  {
  }

  // The outer loop: row after row of macroblocks
  method EncodeRows(sink: BitSink, units: seq<seq<int>>, width: nat, height: nat, subsample: bool,
                    ghost blocks: seq<Block>, ghost total: seq<bit>, ghost d: Spec)
    requires |units| == |Macro(subsample)| * (Runs(0, height, Side(subsample)) * Runs(0, width, Side(subsample)))
    requires InPlace(blocks, units, subsample) && Agree(TABLES, d) && Going(sink, blocks, [0, 0, 0], total)
    modifies sink
    ensures sink.Valid() && sink.Bits() == total
  {
    hide Going, Agree, TABLES, InPlace, Runs, BitSink.Valid, BitSink.Bits, Ahead, Macro;
    var y: nat, k: nat, dcY, dcU, dcV := 0, 0, 0, 0, 0;
    var side := Side(subsample);
    assert blocks[0..] == blocks;
    AheadStart(units, subsample, Runs(0, height, side) * Runs(0, width, side));
    while y < height
      invariant k <= |blocks|
      invariant Ahead(k, subsample, Runs(y, height, side) * Runs(0, width, side), |units|)
      invariant Going(sink, blocks[k..], [dcY, dcU, dcV], total)
      decreases height - y
    {
      RowsNext(y, height, side, Runs(0, width, side));
      k, dcY, dcU, dcV := EncodeRow(sink, units, width, subsample, k, dcY, dcU, dcV, blocks,
                                    Runs(y + side, height, side) * Runs(0, width, side), total, d);
      y := y + side;
    }
    RunsOver(y, height, side);
    AllGone(sink, blocks, units, k, subsample, [dcY, dcU, dcV], total);
  }

  lemma AheadStart(units: seq<seq<int>>, subsample: bool, macros: nat)
    requires |units| == |Macro(subsample)| * macros
    ensures Ahead(0, subsample, macros, |units|)
  {
  }

  lemma AllGone(sink: BitSink, blocks: seq<Block>, units: seq<seq<int>>, k: nat, subsample: bool, preds: seq<int>,
                total: seq<bit>)
    requires InPlace(blocks, units, subsample) && Ahead(k, subsample, 0, |units|) && k <= |blocks|
    requires Going(sink, blocks[k..], preds, total)
    ensures sink.Valid() && sink.Bits() == total
  {
    hide BitSink.Valid, BitSink.Bits, TABLES;
    assert blocks[k..] == [];
    assert sink.Bits() + [] == sink.Bits();
  }

  // The loops, the fill bits and EOI
  method EncodeScan(units: seq<seq<int>>, width: nat, height: nat, subsample: bool, ghost blocks: seq<Block>, ghost d: Spec)
    returns (s: seq<byte>)
    requires |units| == |Macro(subsample)| * (Runs(0, height, Side(subsample)) * Runs(0, width, Side(subsample)))
    requires InPlace(blocks, units, subsample) && ScanInRange(blocks, [0, 0, 0]) && Agree(TABLES, d)
    ensures d.Valid() && DecodeScan(s, Components(blocks), d) == Some(blocks)
  {
    hide BitSink.Valid, BitSink.Bits, Agree, TABLES, InPlace, Runs, DecodeScan, ScanInRange, ScanBits, Going, Macro, Components;
    var sink := new BitSink();
    ghost var total := ScanBits(blocks, [0, 0, 0], TABLES);
    StartsGoing(sink, blocks, total);
    EncodeRows(sink, units, width, height, subsample, blocks, total, d);
    s := Finish(sink, blocks, total, d);
  }

  lemma StartsGoing(sink: BitSink, blocks: seq<Block>, total: seq<bit>)
    requires sink.Valid() && sink.Bits() == [] && ScanInRange(blocks, [0, 0, 0]) && total == ScanBits(blocks, [0, 0, 0], TABLES)
    ensures Going(sink, blocks, [0, 0, 0], total)
  {
    hide ScanBits, ScanInRange, BitSink.Valid, BitSink.Bits, TABLES;
    assert [] + total == total;
  }

  // The bit alignment of the EOI marker
  method Finish(sink: BitSink, ghost blocks: seq<Block>, ghost total: seq<bit>, ghost d: Spec) returns (s: seq<byte>)
    requires sink.Valid() && sink.Bits() == total && ScanInRange(blocks, [0, 0, 0]) && Agree(TABLES, d)
    requires total == ScanBits(blocks, [0, 0, 0], TABLES)
    modifies sink
    ensures d.Valid() && DecodeScan(s, Components(blocks), d) == Some(blocks)
  {
    hide BitSink.Valid, BitSink.Bits, BlockBits, DcTable, AcTable, CodeBits, DecodeScan, TABLES, ScanInRange, ScanBits;
    FillBits();
    sink.WriteBits(FILL);
    SinkParts(sink);
    FilledDecodes(sink.raw, MsbBits(sink.pending, sink.bitCnt), blocks, TABLES, d);
    assert sink.written + [0xFF, 0xD9] == sink.written + [0xFF] + [0xD9];
    sink.PutC(0xFF);
    sink.PutC(0xD9);
    s := sink.written;
  }

  // ------------------------------------------------------------- the file is read

  // What the header of the file tells a decoder: the luminance lists for the first
  // component, the chrominance lists for the other two
  function ToldTables(): Spec {
    Spec([DhtOf(YDC_LIST), DhtOf(UVDC_LIST), DhtOf(UVDC_LIST)], [DhtOf(YAC_LIST), DhtOf(UVAC_LIST), DhtOf(UVAC_LIST)])
  }

  lemma ToldAgree()
    ensures Agree(TABLES, ToldTables())
  {
    hide DcTable, AcTable, SameDht, TABLES, SPEC, YDC_LIST, YAC_LIST, UVDC_LIST, UVAC_LIST;
    DcMatch();
    AcMatch();
    DcSame();
    YACSame();
    UVACSame();
    SameTables(TABLES.ydc, SPEC.ydc, DhtOf(YDC_LIST));
    SameTables(TABLES.uvdc, SPEC.uvdc, DhtOf(UVDC_LIST));
    SameTables(TABLES.yac, SPEC.yac, DhtOf(YAC_LIST));
    SameTables(TABLES.uvac, SPEC.uvac, DhtOf(UVAC_LIST));
    ToldSizes();
  }

  lemma ToldSizes()
    ensures ToldTables().Valid()
    ensures |YDC_LIST.count| == |YAC_LIST.count| == |UVDC_LIST.count| == |UVAC_LIST.count| == 16
  {
    hide YDC_LIST, YAC_LIST, UVDC_LIST, UVAC_LIST, Sum;
    DcSizes();
    YACSize();
    UVACSize();
  }

  lemma UnitIs(width: nat, height: nat, subsample: bool)
    ensures var f := FrameOf(width, height, subsample);
            |f.parts| == 3 && Unit(f.parts) == Macro(subsample)
  {
    assert Times([0], 4) == [0] + ([0] + ([0] + ([0] + []))) by {
      assert Times([0], 3) == [0] + Times([0], 2);
    }
    assert Times([0], 1) == [0] && Times([1], 1) == [1] && Times([2], 1) == [2];
  }

  lemma UnitsAre(width: nat, height: nat, subsample: bool)
    requires width < 65536 && height < 65536
    ensures |FrameOf(width, height, subsample).parts| == 3
    ensures Units(FrameOf(width, height, subsample)) == Macroblocks(width, height, subsample)
  {
    hide CeilDiv;
    assert width % 65536 == width && height % 65536 == height;
    assert Max(Max(1, 1), 1) == 1 && Max(Max(2, 1), 1) == 2;
  }

  lemma SosAccepted(hd: Headers, width: nat, height: nat, subsample: bool, yTable: seq<byte>, uvTable: seq<byte>)
    requires hd == HeadersOf(width, height, subsample, yTable, uvTable)
    ensures ScanHeader(SOS, hd) && Chosen(SOS, hd) == ToldTables()
  {
    hide YDC_LIST, YAC_LIST, UVDC_LIST, UVAC_LIST, DhtOf;
    ToldSizes();
  }

  lemma ImageRead(rest: seq<byte>, width: nat, height: nat, subsample: bool, yTable: seq<byte>, uvTable: seq<byte>,
                  blocks: seq<Block>)
    requires width < 65536 && height < 65536 && ToldTables().Valid()
    requires DecodeScan(rest, Times(Macro(subsample), Macroblocks(width, height, subsample)), ToldTables()) == Some(blocks)
    ensures ReadImage(SOS, rest, HeadersOf(width, height, subsample, yTable, uvTable))
         == Some(Image(width, height, [yTable, uvTable, uvTable], blocks))
  {
    hide ScanHeader, Chosen, ToldTables, DecodeScan, Macroblocks, Macro, Unit, Units, Spec.Valid, SOS;
    var hd := HeadersOf(width, height, subsample, yTable, uvTable);
    SosAccepted(hd, width, height, subsample, yTable, uvTable);
    UnitIs(width, height, subsample);
    UnitsAre(width, height, subsample);
  }

  // The sizes in the file have 16 bits.
  lemma SizesRead(rest: seq<byte>, width: nat, height: nat, subsample: bool, yTable: seq<byte>, uvTable: seq<byte>)
    ensures var r := ReadImage(SOS, rest, HeadersOf(width, height, subsample, yTable, uvTable));
            r.Some? ==> r.value.width == width % 65536 && r.value.height == height % 65536
  {
    hide ScanHeader, Chosen, DecodeScan, Unit, Units, SOS;
    var hd := HeadersOf(width, height, subsample, yTable, uvTable);
    SosAccepted(hd, width, height, subsample, yTable, uvTable);
    UnitIs(width, height, subsample);
  }

  // ---------------------------------------------------------------- the whole file

  // The quantized blocks in the order the loops come to them, in range for the coder
  predicate UnitsFor(units: seq<seq<int>>, width: nat, height: nat, subsample: bool) {
    var comps := Times(Macro(subsample), Macroblocks(width, height, subsample));
    |units| == |comps| && ScanInRange(Placed(units, comps), [0, 0, 0])
  }

  // A reader has found the image: both sizes, the quantization tables of luminance
  // and chrominance, and every block in the component of its place, which is four
  // luminance blocks and then one of each chrominance, or one of each component.
  ghost predicate Found(r: Option<Image>, width: nat, height: nat, subsample: bool, yTable: seq<byte>,
                        uvTable: seq<byte>, units: seq<seq<int>>) {
    && r.Some? && r.value.width == width && r.value.height == height && r.value.quant == [yTable, uvTable, uvTable]
    && |r.value.blocks| == |units|
    && forall i | 0 <= i < |units| ::
         && r.value.blocks[i].du == units[i]
         && r.value.blocks[i].comp == if !subsample then i % 3 else if i % 6 < 4 then 0 else i % 6 - 3
  }

  lemma LoopSizes(units: seq<seq<int>>, width: nat, height: nat, subsample: bool)
    requires UnitsFor(units, width, height, subsample)
    ensures |units| == |Macro(subsample)| * (Runs(0, height, Side(subsample)) * Runs(0, width, Side(subsample)))
  {
    hide Times, ScanInRange, Placed, Runs, Macro;
    TimesSize(Macro(subsample), Macroblocks(width, height, subsample));
    RunsAre(0, height, Side(subsample));
    RunsAre(0, width, Side(subsample));
    ZeroRuns(subsample);
  }

  lemma ZeroRuns(subsample: bool)
    ensures CeilDiv(0, Side(subsample)) == 0
  {
  }

  lemma PlacedInPlace(units: seq<seq<int>>, width: nat, height: nat, subsample: bool)
    requires UnitsFor(units, width, height, subsample)
    ensures var comps := Times(Macro(subsample), Macroblocks(width, height, subsample));
            InPlace(Placed(units, comps), units, subsample) && Components(Placed(units, comps)) == comps
  {
    hide Times, ScanInRange, Macroblocks, Components;
    var n := Macroblocks(width, height, subsample);
    var comps := Times(Macro(subsample), n);
    TimesSize(Macro(subsample), n);
    forall i | 0 <= i < |units|
      ensures comps[i] == Macro(subsample)[i % |Macro(subsample)|]
    {
      TimesAt(Macro(subsample), n, i);
    }
    ComponentsAre(Placed(units, comps));
  }

  lemma FoundInPlace(blocks: seq<Block>, width: nat, height: nat, subsample: bool, yTable: seq<byte>,
                     uvTable: seq<byte>, units: seq<seq<int>>)
    requires InPlace(blocks, units, subsample)
    ensures Found(Some(Image(width, height, [yTable, uvTable, uvTable], blocks)), width, height, subsample,
                  yTable, uvTable, units)
  {
    forall i | 0 <= i < |units|
      ensures blocks[i].comp == if !subsample then i % 3 else if i % 6 < 4 then 0 else i % 6 - 3
    {
      MacroAt(i, subsample);
    }
  }

  lemma MacroAt(i: nat, subsample: bool)
    ensures Macro(subsample)[i % |Macro(subsample)|] == if !subsample then i % 3 else if i % 6 < 4 then 0 else i % 6 - 3
  {
  }

  // The headers and the scan are read together.
  lemma FileRead(headers: seq<byte>, scan: seq<byte>, width: nat, height: nat, subsample: bool, yTable: seq<byte>,
                 uvTable: seq<byte>, units: seq<seq<int>>)
    requires UnitsFor(units, width, height, subsample) && ToldTables().Valid()
    requires HeadersRead(headers, scan, width, height, subsample, yTable, uvTable)
    requires var comps := Times(Macro(subsample), Macroblocks(width, height, subsample));
             DecodeScan(scan, comps, ToldTables()) == Some(Placed(units, comps))
    ensures Found(Decode(headers + scan), width, height, subsample, yTable, uvTable, units)
            <==> width < 65536 && height < 65536
  {
    hide Times, ScanInRange, Macroblocks, Components, DecodeScan, ReadImage, Decode, HeadersOf, Macro, InPlace, Found,
      ToldTables, SOS, UnitsFor;
    var comps := Times(Macro(subsample), Macroblocks(width, height, subsample));
    UnitsSize(units, width, height, subsample);
    SizesRead(scan, width, height, subsample, yTable, uvTable);
    if width < 65536 && height < 65536 {
      ImageRead(scan, width, height, subsample, yTable, uvTable, Placed(units, comps));
      PlacedInPlace(units, width, height, subsample);
      FoundInPlace(Placed(units, comps), width, height, subsample, yTable, uvTable, units);
    } else {
      FoundSizes(Decode(headers + scan), width, height, subsample, yTable, uvTable, units);
    }
  }

  lemma UnitsSize(units: seq<seq<int>>, width: nat, height: nat, subsample: bool)
    requires UnitsFor(units, width, height, subsample)
    ensures |units| == |Times(Macro(subsample), Macroblocks(width, height, subsample))|
  {
  }

  lemma FoundSizes(r: Option<Image>, width: nat, height: nat, subsample: bool, yTable: seq<byte>, uvTable: seq<byte>,
                   units: seq<seq<int>>)
    ensures Found(r, width, height, subsample, yTable, uvTable, units) ==>
              r.Some? && r.value.width == width && r.value.height == height
  {
  }

  // stbi_write_jpg_core: a JPEG reader finds the image in the file if and only if
  // both sizes are below 65536; of no pixels, or an unknown number of components,
  // nothing is written.
  method WriteJpeg(width: nat, height: nat, comp: int, quality: int, yTable: seq<byte>, uvTable: seq<byte>,
                   units: seq<seq<int>>)
    returns (ok: bool, file: seq<byte>)
    requires |yTable| == |uvTable| == 64 && UnitsFor(units, width, height, quality <= 90)
    ensures ok <==> width > 0 && height > 0 && 1 <= comp <= 4
    ensures !ok ==> file == []
    ensures ok ==> (Found(Decode(file), width, height, quality <= 90, yTable, uvTable, units)
                    <==> width < 65536 && height < 65536)
  {
    hide UnitsFor, Found, Decode, HeadersRead, Runs, Macro, InPlace, Agree, TABLES, DecodeScan, ToldTables, Components;
    if width == 0 || height == 0 || comp > 4 || comp < 1 {
      return false, [];
    }
    var q := if quality != 0 then quality else 90;
    var subsample := q <= 90;
    ok := true;
    file := WriteHeaders(width, height, subsample, yTable, uvTable);
    UnitsSize(units, width, height, subsample);
    ghost var blocks := Placed(units, Times(Macro(subsample), Macroblocks(width, height, subsample)));
    LoopSizes(units, width, height, subsample);
    PlacedInPlace(units, width, height, subsample);
    ToldAgree();
    UnitsInRange(units, width, height, subsample);
    var scan := EncodeScan(units, width, height, subsample, blocks, ToldTables());
    FileRead(file, scan, width, height, subsample, yTable, uvTable, units);
    file := file + scan;
  }

  lemma UnitsInRange(units: seq<seq<int>>, width: nat, height: nat, subsample: bool)
    requires UnitsFor(units, width, height, subsample)
    ensures var comps := Times(Macro(subsample), Macroblocks(width, height, subsample));
            |units| == |comps| && ScanInRange(Placed(units, comps), [0, 0, 0])
  {
  }
}
