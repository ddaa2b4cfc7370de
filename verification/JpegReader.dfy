/** A reader of whole baseline JPEG files (ITU-T T.81, annex B): it knows nothing
    of the writer, takes every table from the segments of the file and chooses
    it by the selectors in the frame and scan headers. */
module JpegReader {
  import opened Bits
  import opened Jpeg
  import opened JpegWriter
  import opened Options

  // A Huffman table as it is in the file: 16 counts, then the values
  datatype List = List(count: seq<byte>, value: seq<byte>)

  // A component of the frame: its identifier, sampling factors and quantization table
  datatype Part = Part(id: nat, h: nat, v: nat, quant: nat)

  datatype Frame = Frame(height: nat, width: nat, parts: seq<Part>)

  // What the segments before the scan have said so far
  datatype Headers = Headers(quant: map<nat, seq<byte>>, frame: Option<Frame>, dc: map<nat, List>, ac: map<nat, List>)

  // Sizes, the quantization table of each component, and the blocks of the scan
  datatype Image = Image(width: nat, height: nat, quant: seq<seq<byte>>, blocks: seq<Block>)

  // ------------------------------------------------------------------- segments

  // Two bytes, the most significant one first
  function Word(s: seq<byte>, i: nat): nat
    requires i + 1 < |s|
  {
    s[i] as nat * 256 + s[i + 1] as nat
  }

  // DQT, section B.2.4.1, with tables of 8-bit elements
  function ReadQuant(p: seq<byte>, q: map<nat, seq<byte>>): Option<map<nat, seq<byte>>>
    decreases |p|
  {
    if p == [] then Some(q)
    else if |p| < 65 || p[0] >= 16 then None
    else ReadQuant(p[65..], q[p[0] as nat := p[1..65]])
  }

  function Sum(s: seq<byte>): nat {
    if s == [] then 0 else s[0] + Sum(s[1..])
  }

  // DHT, section B.2.4.2: class 0 is DC, class 1 is AC
  function ReadLists(p: seq<byte>, hd: Headers): Option<Headers>
    decreases |p|
  {
    if p == [] then Some(hd)
    else if |p| < 17 || p[0] >= 32 then None
    else
      var count := p[1..17];
      var end := 17 + Sum(count);
      if |p| < end then None
      else
        var l, id := List(count, p[17..end]), p[0] as nat % 16;
        ReadLists(p[end..], if p[0] < 16 then hd.(dc := hd.dc[id := l]) else hd.(ac := hd.ac[id := l]))
  }

  function ReadParts(p: seq<byte>): seq<Part>
    decreases |p|
  {
    if |p| < 3 then [] else [Part(p[0], p[1] / 16, p[1] % 16, p[2])] + ReadParts(p[3..])
  }

  // SOF0, section B.2.2, of 8-bit samples
  function ReadFrame(p: seq<byte>): Option<Frame> {
    if |p| < 6 || p[0] != 8 || |p| != 6 + 3 * (p[5] as nat) then None
    else Some(Frame(Word(p, 1), Word(p, 3), ReadParts(p[6..])))
  }

  // The segments that may come before the scan; those of applications and
  // comments are passed over.
  function Apply(marker: byte, p: seq<byte>, hd: Headers): Option<Headers> {
    if 0xE0 <= marker < 0xF0 || marker == 0xFE then Some(hd)
    else if marker == 0xDB then
      match ReadQuant(p, hd.quant) case None => None case Some(q) => Some(hd.(quant := q))
    else if marker == 0xC0 then
      match ReadFrame(p) case None => None case Some(f) => Some(hd.(frame := Some(f)))
    else if marker == 0xC4 then ReadLists(p, hd)
    else None
  }

  // ----------------------------------------------------------------------- scans

  function DhtOf(l: List): Dht {
    Dht(l.count, (k: nat) => if k < |l.value| then l.value[k] else 0)
  }

  function Max(a: nat, b: nat): nat {
    if a >= b then a else b
  }

  function CeilDiv(a: nat, b: nat): nat
    requires b > 0
  {
    (a + b - 1) / b
  }

  // n times the same
  function Times(s: seq<nat>, n: nat): (r: seq<nat>) {
    if n == 0 then [] else s + Times(s, n - 1)
  }

  // The minimum coded units of an interleaved scan of three components (section
  // A.2.3): h * v blocks of each component in turn
  function Unit(parts: seq<Part>): seq<nat>
    requires |parts| == 3
  {
    Times([0], parts[0].h * parts[0].v) + Times([1], parts[1].h * parts[1].v) + Times([2], parts[2].h * parts[2].v)
  }

  // How many of them cover the image
  function Units(f: Frame): nat
    requires |f.parts| == 3
  {
    var h := Max(Max(f.parts[0].h, f.parts[1].h), f.parts[2].h);
    var v := Max(Max(f.parts[0].v, f.parts[1].v), f.parts[2].v);
    if h == 0 || v == 0 then 0 else CeilDiv(f.height, 8 * v) * CeilDiv(f.width, 8 * h)
  }

  // What the scan and frame headers say of component c: its identifier and tables
  // that there are
  predicate Specified(p: seq<byte>, c: nat, hd: Headers)
    requires c < 3 && |p| == 10 && hd.frame.Some? && |hd.frame.value.parts| == 3
  {
    var part, td, ta := hd.frame.value.parts[c], p[2 + 2 * c] as nat / 16, p[2 + 2 * c] as nat % 16;
    && part.id == p[1 + 2 * c] && part.quant in hd.quant
    && td in hd.dc && |hd.dc[td].count| == 16 && ta in hd.ac && |hd.ac[ta].count| == 16
  }

  // SOS, section B.2.3, of a sequential scan of the three components of the frame
  predicate ScanHeader(p: seq<byte>, hd: Headers) {
    && |p| == 10 && p[0] == 3 && p[7] == 0 && p[8] == 63 && p[9] == 0
    && hd.frame.Some? && |hd.frame.value.parts| == 3
    && Specified(p, 0, hd) && Specified(p, 1, hd) && Specified(p, 2, hd)
  }

  // The tables that the selectors of the scan name
  function Chosen(p: seq<byte>, hd: Headers): (d: Spec)
    requires ScanHeader(p, hd)
    ensures d.Valid()
  {
    Spec([DhtOf(hd.dc[p[2] as nat / 16]), DhtOf(hd.dc[p[4] as nat / 16]), DhtOf(hd.dc[p[6] as nat / 16])],
         [DhtOf(hd.ac[p[2] as nat % 16]), DhtOf(hd.ac[p[4] as nat % 16]), DhtOf(hd.ac[p[6] as nat % 16])])
  }

  function ReadImage(p: seq<byte>, rest: seq<byte>, hd: Headers): Option<Image> {
    if !ScanHeader(p, hd) then None
    else
      var f := hd.frame.value;
      match DecodeScan(rest, Times(Unit(f.parts), Units(f)), Chosen(p, hd))
      case None => None
      case Some(blocks) =>
        var quant := [hd.quant[f.parts[0].quant], hd.quant[f.parts[1].quant], hd.quant[f.parts[2].quant]];
        Some(Image(f.width, f.height, quant, blocks))
  }

  // ----------------------------------------------------------------------- files

  const NOTHING: Headers := Headers(map[], None, map[], map[])

  function ReadSegments(s: seq<byte>, hd: Headers): Option<Image>
    decreases |s|
  {
    if |s| < 4 || s[0] != 0xFF || Word(s, 2) < 2 || |s| < 2 + Word(s, 2) then None
    else
      var end := 2 + Word(s, 2);
      if s[1] == 0xDA then ReadImage(s[4..end], s[end..], hd)
      else
        match Apply(s[1], s[4..end], hd)
        case None => None
        case Some(hd') => ReadSegments(s[end..], hd')
  }

  // SOI, the segments and the scan with its EOI
  function Decode(file: seq<byte>): Option<Image> {
    if |file| < 2 || file[..2] != [0xFF, 0xD8] then None else ReadSegments(file[2..], NOTHING)
  }

  // -------------------------------------------------------------------- segments

  function Segment(marker: byte, p: seq<byte>): (s: seq<byte>)
    requires |p| + 2 < 65536
    ensures |s| == |p| + 4
  {
    [0xFF, marker, (|p| + 2) / 256, (|p| + 2) % 256] + p
  }

  lemma SegmentParts(marker: byte, p: seq<byte>, rest: seq<byte>)
    requires |p| + 2 < 65536
    ensures var s := Segment(marker, p) + rest;
            && |s| >= 4 && s[0] == 0xFF && s[1] == marker && Word(s, 2) == |p| + 2
            && |s| >= |p| + 4 && s[4..|p| + 4] == p && s[|p| + 4..] == rest
  {
  }

  lemma SegmentApplied(marker: byte, p: seq<byte>, rest: seq<byte>, hd: Headers)
    requires |p| + 2 < 65536 && marker != 0xDA && Apply(marker, p, hd).Some?
    ensures ReadSegments(Segment(marker, p) + rest, hd) == ReadSegments(rest, Apply(marker, p, hd).value)
  {
    hide Segment, Apply;
    SegmentParts(marker, p, rest);
  }

  lemma ScanRead(p: seq<byte>, rest: seq<byte>, hd: Headers)
    requires |p| + 2 < 65536
    ensures ReadSegments(Segment(0xDA, p) + rest, hd) == ReadImage(p, rest, hd)
  {
    hide Segment, Apply, ReadImage;
    SegmentParts(0xDA, p, rest);
  }

  lemma ListRead(info: byte, l: List, rest: seq<byte>, hd: Headers)
    requires info < 32 && |l.count| == 16 && |l.value| == Sum(l.count)
    ensures ReadLists([info] + l.count + l.value + rest, hd)
         == ReadLists(rest, if info < 16 then hd.(dc := hd.dc[info as nat % 16 := l]) else hd.(ac := hd.ac[info as nat % 16 := l]))
  {
    hide Sum;
    var p := [info] + l.count + l.value + rest;
    assert p[1..17] == l.count;
    assert p[17..17 + |l.value|] == l.value;
    assert p[17 + |l.value|..] == rest;
  }

  lemma QuantRead(id: byte, table: seq<byte>, rest: seq<byte>, q: map<nat, seq<byte>>)
    requires id < 16 && |table| == 64
    ensures ReadQuant([id] + table + rest, q) == ReadQuant(rest, q[id as nat := table])
  {
    var p := [id] + table + rest;
    assert p[1..65] == table;
    assert p[65..] == rest;
  }

  // ------------------------------------------------------------ tables that agree

  // Two lists of the same codes
  ghost predicate SameDht(a: Dht, b: Dht) {
    a.count == b.count && forall k: nat :: a.value(k) == b.value(k)
  }

  lemma {:induction false} SameCodes(a: Dht, b: Dht, i: nat)
    requires SameDht(a, b) && a.Valid() && 1 <= i <= 16
    ensures a.MinCode(i) == b.MinCode(i) && a.ValPtr(i) == b.ValPtr(i)
  {
    if i > 1 {
      SameCodes(a, b, i - 1);
    }
  }

  lemma SameCode(c: Code, s: nat, a: Dht, b: Dht)
    requires SameDht(a, b) && a.Valid() && CodeOf(c, s, a)
    ensures CodeOf(c, s, b)
  {
    hide Dht.MinCode, Dht.ValPtr, Pow2;
    SameCodes(a, b, c.len);
  }

  lemma SameMatches(ht: Table, a: Dht, b: Dht)
    requires SameDht(a, b) && Matches(ht, a)
    ensures Matches(ht, b)
  {
    hide CodeOf;
    forall s: nat | s < 256 && ht(s).len > 0
      ensures CodeOf(ht(s), s, b)
    {
      SameCode(ht(s), s, a, b);
    }
  }

  lemma SameTables(ht: Table, a: Dht, b: Dht)
    requires SameDht(a, b)
    ensures DcTable(ht, a) ==> DcTable(ht, b)
    ensures AcTable(ht, a) ==> AcTable(ht, b)
  {
    hide Matches;
    if Matches(ht, a) {
      SameMatches(ht, a, b);
    }
  }
}
