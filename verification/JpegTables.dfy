/** The four Huffman tables of `stbi_write_jpg_core` and the lists its DHT
    segment carries: every code the writer uses is the one those lists generate. */
module JpegTables {
  import opened Bits
  import opened Jpeg
  import opened JpegWriter
  import opened Options

  const NONE: Code := Code(0, 0)

  // Entry i of a row that starts at the given index, none beyond its end
  function CodeAt(row: seq<Code>, i: nat): Code {
    if i < |row| then row[i] else NONE
  }

  function ValueAt(row: seq<byte>, i: nat): nat {
    if i < |row| then row[i] else 0
  }

  // DC luminance
  const YDC_HT: seq<Code> :=
    [Code(0, 2), Code(2, 3), Code(3, 3), Code(4, 3), Code(5, 3), Code(6, 3), Code(14, 4), Code(30, 5),
     Code(62, 6), Code(126, 7), Code(254, 8), Code(510, 9)]

  // DC chrominance
  const UVDC_HT: seq<Code> :=
    [Code(0, 2), Code(1, 2), Code(2, 2), Code(6, 3), Code(14, 4), Code(30, 5), Code(62, 6), Code(126, 7),
     Code(254, 8), Code(510, 9), Code(1022, 10), Code(2046, 11)]

  // AC luminance, one row for each run of zeros, indexed by category
  const YAC0: seq<Code> :=
    [Code(10, 4), Code(0, 2), Code(1, 2), Code(4, 3), Code(11, 4), Code(26, 5), Code(120, 7), Code(248, 8),
     Code(1014, 10), Code(65410, 16), Code(65411, 16)]
  const YAC1: seq<Code> :=
    [Code(0, 0), Code(12, 4), Code(27, 5), Code(121, 7), Code(502, 9), Code(2038, 11), Code(65412, 16), Code(65413, 16),
     Code(65414, 16), Code(65415, 16), Code(65416, 16)]
  const YAC2: seq<Code> :=
    [Code(0, 0), Code(28, 5), Code(249, 8), Code(1015, 10), Code(4084, 12), Code(65417, 16), Code(65418, 16), Code(65419, 16),
     Code(65420, 16), Code(65421, 16), Code(65422, 16)]
  const YAC3: seq<Code> :=
    [Code(0, 0), Code(58, 6), Code(503, 9), Code(4085, 12), Code(65423, 16), Code(65424, 16), Code(65425, 16), Code(65426, 16),
     Code(65427, 16), Code(65428, 16), Code(65429, 16)]
  const YAC4: seq<Code> :=
    [Code(0, 0), Code(59, 6), Code(1016, 10), Code(65430, 16), Code(65431, 16), Code(65432, 16), Code(65433, 16), Code(65434, 16),
     Code(65435, 16), Code(65436, 16), Code(65437, 16)]
  const YAC5: seq<Code> :=
    [Code(0, 0), Code(122, 7), Code(2039, 11), Code(65438, 16), Code(65439, 16), Code(65440, 16), Code(65441, 16), Code(65442, 16),
     Code(65443, 16), Code(65444, 16), Code(65445, 16)]
  const YAC6: seq<Code> :=
    [Code(0, 0), Code(123, 7), Code(4086, 12), Code(65446, 16), Code(65447, 16), Code(65448, 16), Code(65449, 16), Code(65450, 16),
     Code(65451, 16), Code(65452, 16), Code(65453, 16)]
  const YAC7: seq<Code> :=
    [Code(0, 0), Code(250, 8), Code(4087, 12), Code(65454, 16), Code(65455, 16), Code(65456, 16), Code(65457, 16), Code(65458, 16),
     Code(65459, 16), Code(65460, 16), Code(65461, 16)]
  const YAC8: seq<Code> :=
    [Code(0, 0), Code(504, 9), Code(32704, 15), Code(65462, 16), Code(65463, 16), Code(65464, 16), Code(65465, 16), Code(65466, 16),
     Code(65467, 16), Code(65468, 16), Code(65469, 16)]
  const YAC9: seq<Code> :=
    [Code(0, 0), Code(505, 9), Code(65470, 16), Code(65471, 16), Code(65472, 16), Code(65473, 16), Code(65474, 16), Code(65475, 16),
     Code(65476, 16), Code(65477, 16), Code(65478, 16)]
  const YAC10: seq<Code> :=
    [Code(0, 0), Code(506, 9), Code(65479, 16), Code(65480, 16), Code(65481, 16), Code(65482, 16), Code(65483, 16), Code(65484, 16),
     Code(65485, 16), Code(65486, 16), Code(65487, 16)]
  const YAC11: seq<Code> :=
    [Code(0, 0), Code(1017, 10), Code(65488, 16), Code(65489, 16), Code(65490, 16), Code(65491, 16), Code(65492, 16), Code(65493, 16),
     Code(65494, 16), Code(65495, 16), Code(65496, 16)]
  const YAC12: seq<Code> :=
    [Code(0, 0), Code(1018, 10), Code(65497, 16), Code(65498, 16), Code(65499, 16), Code(65500, 16), Code(65501, 16), Code(65502, 16),
     Code(65503, 16), Code(65504, 16), Code(65505, 16)]
  const YAC13: seq<Code> :=
    [Code(0, 0), Code(2040, 11), Code(65506, 16), Code(65507, 16), Code(65508, 16), Code(65509, 16), Code(65510, 16), Code(65511, 16),
     Code(65512, 16), Code(65513, 16), Code(65514, 16)]
  const YAC14: seq<Code> :=
    [Code(0, 0), Code(65515, 16), Code(65516, 16), Code(65517, 16), Code(65518, 16), Code(65519, 16), Code(65520, 16), Code(65521, 16),
     Code(65522, 16), Code(65523, 16), Code(65524, 16)]
  const YAC15: seq<Code> :=
    [Code(2041, 11), Code(65525, 16), Code(65526, 16), Code(65527, 16), Code(65528, 16), Code(65529, 16), Code(65530, 16), Code(65531, 16),
     Code(65532, 16), Code(65533, 16), Code(65534, 16)]

  function YACRow(run: nat): seq<Code> {
    match run
    case 0 => YAC0
    case 1 => YAC1
    case 2 => YAC2
    case 3 => YAC3
    case 4 => YAC4
    case 5 => YAC5
    case 6 => YAC6
    case 7 => YAC7
    case 8 => YAC8
    case 9 => YAC9
    case 10 => YAC10
    case 11 => YAC11
    case 12 => YAC12
    case 13 => YAC13
    case 14 => YAC14
    case 15 => YAC15
    case _ => []
  }

  // AC chrominance, one row for each run of zeros, indexed by category
  const UVAC0: seq<Code> :=
    [Code(0, 2), Code(1, 2), Code(4, 3), Code(10, 4), Code(24, 5), Code(25, 5), Code(56, 6), Code(120, 7),
     Code(500, 9), Code(1014, 10), Code(4084, 12)]
  const UVAC1: seq<Code> :=
    [Code(0, 0), Code(11, 4), Code(57, 6), Code(246, 8), Code(501, 9), Code(2038, 11), Code(4085, 12), Code(65416, 16),
     Code(65417, 16), Code(65418, 16), Code(65419, 16)]
  const UVAC2: seq<Code> :=
    [Code(0, 0), Code(26, 5), Code(247, 8), Code(1015, 10), Code(4086, 12), Code(32706, 15), Code(65420, 16), Code(65421, 16),
     Code(65422, 16), Code(65423, 16), Code(65424, 16)]
  const UVAC3: seq<Code> :=
    [Code(0, 0), Code(27, 5), Code(248, 8), Code(1016, 10), Code(4087, 12), Code(65425, 16), Code(65426, 16), Code(65427, 16),
     Code(65428, 16), Code(65429, 16), Code(65430, 16)]
  const UVAC4: seq<Code> :=
    [Code(0, 0), Code(58, 6), Code(502, 9), Code(65431, 16), Code(65432, 16), Code(65433, 16), Code(65434, 16), Code(65435, 16),
     Code(65436, 16), Code(65437, 16), Code(65438, 16)]
  const UVAC5: seq<Code> :=
    [Code(0, 0), Code(59, 6), Code(1017, 10), Code(65439, 16), Code(65440, 16), Code(65441, 16), Code(65442, 16), Code(65443, 16),
     Code(65444, 16), Code(65445, 16), Code(65446, 16)]
  const UVAC6: seq<Code> :=
    [Code(0, 0), Code(121, 7), Code(2039, 11), Code(65447, 16), Code(65448, 16), Code(65449, 16), Code(65450, 16), Code(65451, 16),
     Code(65452, 16), Code(65453, 16), Code(65454, 16)]
  const UVAC7: seq<Code> :=
    [Code(0, 0), Code(122, 7), Code(2040, 11), Code(65455, 16), Code(65456, 16), Code(65457, 16), Code(65458, 16), Code(65459, 16),
     Code(65460, 16), Code(65461, 16), Code(65462, 16)]
  const UVAC8: seq<Code> :=
    [Code(0, 0), Code(249, 8), Code(65463, 16), Code(65464, 16), Code(65465, 16), Code(65466, 16), Code(65467, 16), Code(65468, 16),
     Code(65469, 16), Code(65470, 16), Code(65471, 16)]
  const UVAC9: seq<Code> :=
    [Code(0, 0), Code(503, 9), Code(65472, 16), Code(65473, 16), Code(65474, 16), Code(65475, 16), Code(65476, 16), Code(65477, 16),
     Code(65478, 16), Code(65479, 16), Code(65480, 16)]
  const UVAC10: seq<Code> :=
    [Code(0, 0), Code(504, 9), Code(65481, 16), Code(65482, 16), Code(65483, 16), Code(65484, 16), Code(65485, 16), Code(65486, 16),
     Code(65487, 16), Code(65488, 16), Code(65489, 16)]
  const UVAC11: seq<Code> :=
    [Code(0, 0), Code(505, 9), Code(65490, 16), Code(65491, 16), Code(65492, 16), Code(65493, 16), Code(65494, 16), Code(65495, 16),
     Code(65496, 16), Code(65497, 16), Code(65498, 16)]
  const UVAC12: seq<Code> :=
    [Code(0, 0), Code(506, 9), Code(65499, 16), Code(65500, 16), Code(65501, 16), Code(65502, 16), Code(65503, 16), Code(65504, 16),
     Code(65505, 16), Code(65506, 16), Code(65507, 16)]
  const UVAC13: seq<Code> :=
    [Code(0, 0), Code(2041, 11), Code(65508, 16), Code(65509, 16), Code(65510, 16), Code(65511, 16), Code(65512, 16), Code(65513, 16),
     Code(65514, 16), Code(65515, 16), Code(65516, 16)]
  const UVAC14: seq<Code> :=
    [Code(0, 0), Code(16352, 14), Code(65517, 16), Code(65518, 16), Code(65519, 16), Code(65520, 16), Code(65521, 16), Code(65522, 16),
     Code(65523, 16), Code(65524, 16), Code(65525, 16)]
  const UVAC15: seq<Code> :=
    [Code(1018, 10), Code(32707, 15), Code(65526, 16), Code(65527, 16), Code(65528, 16), Code(65529, 16), Code(65530, 16), Code(65531, 16),
     Code(65532, 16), Code(65533, 16), Code(65534, 16)]

  function UVACRow(run: nat): seq<Code> {
    match run
    case 0 => UVAC0
    case 1 => UVAC1
    case 2 => UVAC2
    case 3 => UVAC3
    case 4 => UVAC4
    case 5 => UVAC5
    case 6 => UVAC6
    case 7 => UVAC7
    case 8 => UVAC8
    case 9 => UVAC9
    case 10 => UVAC10
    case 11 => UVAC11
    case 12 => UVAC12
    case 13 => UVAC13
    case 14 => UVAC14
    case 15 => UVAC15
    case _ => []
  }

  // std_dc_luminance_nrcodes from length 1 on, and std_dc_luminance_values
  const YDC_COUNT: seq<byte> := [0, 1, 5, 1, 1, 1, 1, 1, 1, 0, 0, 0, 0, 0, 0, 0]
  const YDC_VALUES0: seq<byte> := [0x00, 0x01, 0x02, 0x03, 0x04, 0x05, 0x06, 0x07, 0x08, 0x09, 0x0a, 0x0b]

  function YDCValue(k: nat): nat {
    match k / 16
    case 0 => ValueAt(YDC_VALUES0, k % 16)
    case _ => 0
  }

  // std_dc_chrominance_nrcodes from length 1 on, and std_dc_chrominance_values
  const UVDC_COUNT: seq<byte> := [0, 3, 1, 1, 1, 1, 1, 1, 1, 1, 1, 0, 0, 0, 0, 0]
  const UVDC_VALUES0: seq<byte> := [0x00, 0x01, 0x02, 0x03, 0x04, 0x05, 0x06, 0x07, 0x08, 0x09, 0x0a, 0x0b]

  function UVDCValue(k: nat): nat {
    match k / 16
    case 0 => ValueAt(UVDC_VALUES0, k % 16)
    case _ => 0
  }

  // std_ac_luminance_nrcodes from length 1 on, and std_ac_luminance_values
  const YAC_COUNT: seq<byte> := [0, 2, 1, 3, 3, 2, 4, 3, 5, 5, 4, 4, 0, 0, 1, 125]
  const YAC_VALUES0: seq<byte> := [0x01, 0x02, 0x03, 0x00, 0x04, 0x11, 0x05, 0x12, 0x21, 0x31, 0x41, 0x06, 0x13, 0x51, 0x61, 0x07]
  const YAC_VALUES1: seq<byte> := [0x22, 0x71, 0x14, 0x32, 0x81, 0x91, 0xa1, 0x08, 0x23, 0x42, 0xb1, 0xc1, 0x15, 0x52, 0xd1, 0xf0]
  const YAC_VALUES2: seq<byte> := [0x24, 0x33, 0x62, 0x72, 0x82, 0x09, 0x0a, 0x16, 0x17, 0x18, 0x19, 0x1a, 0x25, 0x26, 0x27, 0x28]
  const YAC_VALUES3: seq<byte> := [0x29, 0x2a, 0x34, 0x35, 0x36, 0x37, 0x38, 0x39, 0x3a, 0x43, 0x44, 0x45, 0x46, 0x47, 0x48, 0x49]
  const YAC_VALUES4: seq<byte> := [0x4a, 0x53, 0x54, 0x55, 0x56, 0x57, 0x58, 0x59, 0x5a, 0x63, 0x64, 0x65, 0x66, 0x67, 0x68, 0x69]
  const YAC_VALUES5: seq<byte> := [0x6a, 0x73, 0x74, 0x75, 0x76, 0x77, 0x78, 0x79, 0x7a, 0x83, 0x84, 0x85, 0x86, 0x87, 0x88, 0x89]
  const YAC_VALUES6: seq<byte> := [0x8a, 0x92, 0x93, 0x94, 0x95, 0x96, 0x97, 0x98, 0x99, 0x9a, 0xa2, 0xa3, 0xa4, 0xa5, 0xa6, 0xa7]
  const YAC_VALUES7: seq<byte> := [0xa8, 0xa9, 0xaa, 0xb2, 0xb3, 0xb4, 0xb5, 0xb6, 0xb7, 0xb8, 0xb9, 0xba, 0xc2, 0xc3, 0xc4, 0xc5]
  const YAC_VALUES8: seq<byte> := [0xc6, 0xc7, 0xc8, 0xc9, 0xca, 0xd2, 0xd3, 0xd4, 0xd5, 0xd6, 0xd7, 0xd8, 0xd9, 0xda, 0xe1, 0xe2]
  const YAC_VALUES9: seq<byte> := [0xe3, 0xe4, 0xe5, 0xe6, 0xe7, 0xe8, 0xe9, 0xea, 0xf1, 0xf2, 0xf3, 0xf4, 0xf5, 0xf6, 0xf7, 0xf8]
  const YAC_VALUES10: seq<byte> := [0xf9, 0xfa]

  function YACValue(k: nat): nat {
    match k / 16
    case 0 => ValueAt(YAC_VALUES0, k % 16)
    case 1 => ValueAt(YAC_VALUES1, k % 16)
    case 2 => ValueAt(YAC_VALUES2, k % 16)
    case 3 => ValueAt(YAC_VALUES3, k % 16)
    case 4 => ValueAt(YAC_VALUES4, k % 16)
    case 5 => ValueAt(YAC_VALUES5, k % 16)
    case 6 => ValueAt(YAC_VALUES6, k % 16)
    case 7 => ValueAt(YAC_VALUES7, k % 16)
    case 8 => ValueAt(YAC_VALUES8, k % 16)
    case 9 => ValueAt(YAC_VALUES9, k % 16)
    case 10 => ValueAt(YAC_VALUES10, k % 16)
    case _ => 0
  }

  // std_ac_chrominance_nrcodes from length 1 on, and std_ac_chrominance_values
  const UVAC_COUNT: seq<byte> := [0, 2, 1, 2, 4, 4, 3, 4, 7, 5, 4, 4, 0, 1, 2, 119]
  const UVAC_VALUES0: seq<byte> := [0x00, 0x01, 0x02, 0x03, 0x11, 0x04, 0x05, 0x21, 0x31, 0x06, 0x12, 0x41, 0x51, 0x07, 0x61, 0x71]
  const UVAC_VALUES1: seq<byte> := [0x13, 0x22, 0x32, 0x81, 0x08, 0x14, 0x42, 0x91, 0xa1, 0xb1, 0xc1, 0x09, 0x23, 0x33, 0x52, 0xf0]
  const UVAC_VALUES2: seq<byte> := [0x15, 0x62, 0x72, 0xd1, 0x0a, 0x16, 0x24, 0x34, 0xe1, 0x25, 0xf1, 0x17, 0x18, 0x19, 0x1a, 0x26]
  const UVAC_VALUES3: seq<byte> := [0x27, 0x28, 0x29, 0x2a, 0x35, 0x36, 0x37, 0x38, 0x39, 0x3a, 0x43, 0x44, 0x45, 0x46, 0x47, 0x48]
  const UVAC_VALUES4: seq<byte> := [0x49, 0x4a, 0x53, 0x54, 0x55, 0x56, 0x57, 0x58, 0x59, 0x5a, 0x63, 0x64, 0x65, 0x66, 0x67, 0x68]
  const UVAC_VALUES5: seq<byte> := [0x69, 0x6a, 0x73, 0x74, 0x75, 0x76, 0x77, 0x78, 0x79, 0x7a, 0x82, 0x83, 0x84, 0x85, 0x86, 0x87]
  const UVAC_VALUES6: seq<byte> := [0x88, 0x89, 0x8a, 0x92, 0x93, 0x94, 0x95, 0x96, 0x97, 0x98, 0x99, 0x9a, 0xa2, 0xa3, 0xa4, 0xa5]
  const UVAC_VALUES7: seq<byte> := [0xa6, 0xa7, 0xa8, 0xa9, 0xaa, 0xb2, 0xb3, 0xb4, 0xb5, 0xb6, 0xb7, 0xb8, 0xb9, 0xba, 0xc2, 0xc3]
  const UVAC_VALUES8: seq<byte> := [0xc4, 0xc5, 0xc6, 0xc7, 0xc8, 0xc9, 0xca, 0xd2, 0xd3, 0xd4, 0xd5, 0xd6, 0xd7, 0xd8, 0xd9, 0xda]
  const UVAC_VALUES9: seq<byte> := [0xe2, 0xe3, 0xe4, 0xe5, 0xe6, 0xe7, 0xe8, 0xe9, 0xea, 0xf2, 0xf3, 0xf4, 0xf5, 0xf6, 0xf7, 0xf8]
  const UVAC_VALUES10: seq<byte> := [0xf9, 0xfa]

  function UVACValue(k: nat): nat {
    match k / 16
    case 0 => ValueAt(UVAC_VALUES0, k % 16)
    case 1 => ValueAt(UVAC_VALUES1, k % 16)
    case 2 => ValueAt(UVAC_VALUES2, k % 16)
    case 3 => ValueAt(UVAC_VALUES3, k % 16)
    case 4 => ValueAt(UVAC_VALUES4, k % 16)
    case 5 => ValueAt(UVAC_VALUES5, k % 16)
    case 6 => ValueAt(UVAC_VALUES6, k % 16)
    case 7 => ValueAt(UVAC_VALUES7, k % 16)
    case 8 => ValueAt(UVAC_VALUES8, k % 16)
    case 9 => ValueAt(UVAC_VALUES9, k % 16)
    case 10 => ValueAt(UVAC_VALUES10, k % 16)
    case _ => 0
  }

  const TABLES: Tables := Tables(
    (s: nat) => CodeAt(YDC_HT, s),
    (s: nat) => CodeAt(YACRow(s / 16), s % 16),
    (s: nat) => CodeAt(UVDC_HT, s),
    (s: nat) => CodeAt(UVACRow(s / 16), s % 16))

  // The lists of the DHT segment
  datatype Lists = Lists(ydc: Dht, yac: Dht, uvdc: Dht, uvac: Dht)

  const SPEC: Lists := Lists(
    Dht(YDC_COUNT, k => YDCValue(k)), Dht(YAC_COUNT, k => YACValue(k)),
    Dht(UVDC_COUNT, k => UVDCValue(k)), Dht(UVAC_COUNT, k => UVACValue(k)))

  lemma YDCCodes()
    ensures |YDC_COUNT| == 16
    ensures var d := SPEC.ydc; d.MinCode(1) == 0 && d.MinCode(2) == 0 && d.MinCode(3) == 2 && d.MinCode(4) == 14
    ensures var d := SPEC.ydc; d.MinCode(5) == 30 && d.MinCode(6) == 62 && d.MinCode(7) == 126 && d.MinCode(8) == 254
    ensures var d := SPEC.ydc; d.MinCode(9) == 510 && d.MinCode(10) == 1022 && d.MinCode(11) == 2044 && d.MinCode(12) == 4088
    ensures var d := SPEC.ydc; d.MinCode(13) == 8176 && d.MinCode(14) == 16352 && d.MinCode(15) == 32704 && d.MinCode(16) == 65408
  {
  }

  lemma YDCPointers()
    ensures |YDC_COUNT| == 16
    ensures var d := SPEC.ydc; d.ValPtr(1) == 0 && d.ValPtr(2) == 0 && d.ValPtr(3) == 1 && d.ValPtr(4) == 6
    ensures var d := SPEC.ydc; d.ValPtr(5) == 7 && d.ValPtr(6) == 8 && d.ValPtr(7) == 9 && d.ValPtr(8) == 10
    ensures var d := SPEC.ydc; d.ValPtr(9) == 11 && d.ValPtr(10) == 12 && d.ValPtr(11) == 12 && d.ValPtr(12) == 12
    ensures var d := SPEC.ydc; d.ValPtr(13) == 12 && d.ValPtr(14) == 12 && d.ValPtr(15) == 12 && d.ValPtr(16) == 12
  {
  }

  lemma UVDCCodes()
    ensures |UVDC_COUNT| == 16
    ensures var d := SPEC.uvdc; d.MinCode(1) == 0 && d.MinCode(2) == 0 && d.MinCode(3) == 6 && d.MinCode(4) == 14
    ensures var d := SPEC.uvdc; d.MinCode(5) == 30 && d.MinCode(6) == 62 && d.MinCode(7) == 126 && d.MinCode(8) == 254
    ensures var d := SPEC.uvdc; d.MinCode(9) == 510 && d.MinCode(10) == 1022 && d.MinCode(11) == 2046 && d.MinCode(12) == 4094
    ensures var d := SPEC.uvdc; d.MinCode(13) == 8188 && d.MinCode(14) == 16376 && d.MinCode(15) == 32752 && d.MinCode(16) == 65504
  {
  }

  lemma UVDCPointers()
    ensures |UVDC_COUNT| == 16
    ensures var d := SPEC.uvdc; d.ValPtr(1) == 0 && d.ValPtr(2) == 0 && d.ValPtr(3) == 3 && d.ValPtr(4) == 4
    ensures var d := SPEC.uvdc; d.ValPtr(5) == 5 && d.ValPtr(6) == 6 && d.ValPtr(7) == 7 && d.ValPtr(8) == 8
    ensures var d := SPEC.uvdc; d.ValPtr(9) == 9 && d.ValPtr(10) == 10 && d.ValPtr(11) == 11 && d.ValPtr(12) == 12
    ensures var d := SPEC.uvdc; d.ValPtr(13) == 12 && d.ValPtr(14) == 12 && d.ValPtr(15) == 12 && d.ValPtr(16) == 12
  {
  }

  lemma YACCodes()
    ensures |YAC_COUNT| == 16
    ensures var d := SPEC.yac; d.MinCode(1) == 0 && d.MinCode(2) == 0 && d.MinCode(3) == 4 && d.MinCode(4) == 10
    ensures var d := SPEC.yac; d.MinCode(5) == 26 && d.MinCode(6) == 58 && d.MinCode(7) == 120 && d.MinCode(8) == 248
    ensures var d := SPEC.yac; d.MinCode(9) == 502 && d.MinCode(10) == 1014 && d.MinCode(11) == 2038 && d.MinCode(12) == 4084
    ensures var d := SPEC.yac; d.MinCode(13) == 8176 && d.MinCode(14) == 16352 && d.MinCode(15) == 32704 && d.MinCode(16) == 65410
  {
  }

  lemma YACPointers()
    ensures |YAC_COUNT| == 16
    ensures var d := SPEC.yac; d.ValPtr(1) == 0 && d.ValPtr(2) == 0 && d.ValPtr(3) == 2 && d.ValPtr(4) == 3
    ensures var d := SPEC.yac; d.ValPtr(5) == 6 && d.ValPtr(6) == 9 && d.ValPtr(7) == 11 && d.ValPtr(8) == 15
    ensures var d := SPEC.yac; d.ValPtr(9) == 18 && d.ValPtr(10) == 23 && d.ValPtr(11) == 28 && d.ValPtr(12) == 32
    ensures var d := SPEC.yac; d.ValPtr(13) == 36 && d.ValPtr(14) == 36 && d.ValPtr(15) == 36 && d.ValPtr(16) == 37
  {
  }

  lemma UVACCodes()
    ensures |UVAC_COUNT| == 16
    ensures var d := SPEC.uvac; d.MinCode(1) == 0 && d.MinCode(2) == 0 && d.MinCode(3) == 4 && d.MinCode(4) == 10
    ensures var d := SPEC.uvac; d.MinCode(5) == 24 && d.MinCode(6) == 56 && d.MinCode(7) == 120 && d.MinCode(8) == 246
    ensures var d := SPEC.uvac; d.MinCode(9) == 500 && d.MinCode(10) == 1014 && d.MinCode(11) == 2038 && d.MinCode(12) == 4084
    ensures var d := SPEC.uvac; d.MinCode(13) == 8176 && d.MinCode(14) == 16352 && d.MinCode(15) == 32706 && d.MinCode(16) == 65416
  {
  }

  lemma UVACPointers()
    ensures |UVAC_COUNT| == 16
    ensures var d := SPEC.uvac; d.ValPtr(1) == 0 && d.ValPtr(2) == 0 && d.ValPtr(3) == 2 && d.ValPtr(4) == 3
    ensures var d := SPEC.uvac; d.ValPtr(5) == 5 && d.ValPtr(6) == 9 && d.ValPtr(7) == 13 && d.ValPtr(8) == 16
    ensures var d := SPEC.uvac; d.ValPtr(9) == 20 && d.ValPtr(10) == 27 && d.ValPtr(11) == 32 && d.ValPtr(12) == 36
    ensures var d := SPEC.uvac; d.ValPtr(13) == 40 && d.ValPtr(14) == 40 && d.ValPtr(15) == 41 && d.ValPtr(16) == 43
  {
  }

  lemma YDCMatches(s: nat)
    requires s < 12
    ensures |YDC_COUNT| == 16 && CodeOf(CodeAt(YDC_HT, s), s, SPEC.ydc)
  {
    YDCCodes();
    YDCPointers();
    Pow2Values();
  }

  lemma UVDCMatches(s: nat)
    requires s < 12
    ensures |UVDC_COUNT| == 16 && CodeOf(CodeAt(UVDC_HT, s), s, SPEC.uvdc)
  {
    UVDCCodes();
    UVDCPointers();
    Pow2Values();
  }

  lemma YAC0Matches(i: nat)
    requires i < |YAC0| && YAC0[i].len > 0
    ensures |YAC_COUNT| == 16 && CodeOf(YAC0[i], 0 + i, SPEC.yac)
  {
    YACCodes();
    YACPointers();
    Pow2Values();
  }

  lemma YAC1Matches(i: nat)
    requires i < |YAC1| && YAC1[i].len > 0
    ensures |YAC_COUNT| == 16 && CodeOf(YAC1[i], 16 + i, SPEC.yac)
  {
    YACCodes();
    YACPointers();
    Pow2Values();
  }

  lemma YAC2Matches(i: nat)
    requires i < |YAC2| && YAC2[i].len > 0
    ensures |YAC_COUNT| == 16 && CodeOf(YAC2[i], 32 + i, SPEC.yac)
  {
    YACCodes();
    YACPointers();
    Pow2Values();
  }

  lemma YAC3Matches(i: nat)
    requires i < |YAC3| && YAC3[i].len > 0
    ensures |YAC_COUNT| == 16 && CodeOf(YAC3[i], 48 + i, SPEC.yac)
  {
    YACCodes();
    YACPointers();
    Pow2Values();
  }

  lemma YAC4Matches(i: nat)
    requires i < |YAC4| && YAC4[i].len > 0
    ensures |YAC_COUNT| == 16 && CodeOf(YAC4[i], 64 + i, SPEC.yac)
  {
    YACCodes();
    YACPointers();
    Pow2Values();
  }

  lemma YAC5Matches(i: nat)
    requires i < |YAC5| && YAC5[i].len > 0
    ensures |YAC_COUNT| == 16 && CodeOf(YAC5[i], 80 + i, SPEC.yac)
  {
    YACCodes();
    YACPointers();
    Pow2Values();
  }

  lemma YAC6Matches(i: nat)
    requires i < |YAC6| && YAC6[i].len > 0
    ensures |YAC_COUNT| == 16 && CodeOf(YAC6[i], 96 + i, SPEC.yac)
  {
    YACCodes();
    YACPointers();
    Pow2Values();
  }

  lemma YAC7Matches(i: nat)
    requires i < |YAC7| && YAC7[i].len > 0
    ensures |YAC_COUNT| == 16 && CodeOf(YAC7[i], 112 + i, SPEC.yac)
  {
    YACCodes();
    YACPointers();
    Pow2Values();
  }

  lemma YAC8Matches(i: nat)
    requires i < |YAC8| && YAC8[i].len > 0
    ensures |YAC_COUNT| == 16 && CodeOf(YAC8[i], 128 + i, SPEC.yac)
  {
    YACCodes();
    YACPointers();
    Pow2Values();
  }

  lemma YAC9Matches(i: nat)
    requires i < |YAC9| && YAC9[i].len > 0
    ensures |YAC_COUNT| == 16 && CodeOf(YAC9[i], 144 + i, SPEC.yac)
  {
    YACCodes();
    YACPointers();
    Pow2Values();
  }

  lemma YAC10Matches(i: nat)
    requires i < |YAC10| && YAC10[i].len > 0
    ensures |YAC_COUNT| == 16 && CodeOf(YAC10[i], 160 + i, SPEC.yac)
  {
    YACCodes();
    YACPointers();
    Pow2Values();
  }

  lemma YAC11Matches(i: nat)
    requires i < |YAC11| && YAC11[i].len > 0
    ensures |YAC_COUNT| == 16 && CodeOf(YAC11[i], 176 + i, SPEC.yac)
  {
    YACCodes();
    YACPointers();
    Pow2Values();
  }

  lemma YAC12Matches(i: nat)
    requires i < |YAC12| && YAC12[i].len > 0
    ensures |YAC_COUNT| == 16 && CodeOf(YAC12[i], 192 + i, SPEC.yac)
  {
    YACCodes();
    YACPointers();
    Pow2Values();
  }

  lemma YAC13Matches(i: nat)
    requires i < |YAC13| && YAC13[i].len > 0
    ensures |YAC_COUNT| == 16 && CodeOf(YAC13[i], 208 + i, SPEC.yac)
  {
    YACCodes();
    YACPointers();
    Pow2Values();
  }

  lemma YAC14Matches(i: nat)
    requires i < |YAC14| && YAC14[i].len > 0
    ensures |YAC_COUNT| == 16 && CodeOf(YAC14[i], 224 + i, SPEC.yac)
  {
    YACCodes();
    YACPointers();
    Pow2Values();
  }

  lemma YAC15Matches(i: nat)
    requires i < |YAC15| && YAC15[i].len > 0
    ensures |YAC_COUNT| == 16 && CodeOf(YAC15[i], 240 + i, SPEC.yac)
  {
    YACCodes();
    YACPointers();
    Pow2Values();
  }

  lemma UVAC0Matches(i: nat)
    requires i < |UVAC0| && UVAC0[i].len > 0
    ensures |UVAC_COUNT| == 16 && CodeOf(UVAC0[i], 0 + i, SPEC.uvac)
  {
    UVACCodes();
    UVACPointers();
    Pow2Values();
  }

  lemma UVAC1Matches(i: nat)
    requires i < |UVAC1| && UVAC1[i].len > 0
    ensures |UVAC_COUNT| == 16 && CodeOf(UVAC1[i], 16 + i, SPEC.uvac)
  {
    UVACCodes();
    UVACPointers();
    Pow2Values();
  }

  lemma UVAC2Matches(i: nat)
    requires i < |UVAC2| && UVAC2[i].len > 0
    ensures |UVAC_COUNT| == 16 && CodeOf(UVAC2[i], 32 + i, SPEC.uvac)
  {
    UVACCodes();
    UVACPointers();
    Pow2Values();
  }

  lemma UVAC3Matches(i: nat)
    requires i < |UVAC3| && UVAC3[i].len > 0
    ensures |UVAC_COUNT| == 16 && CodeOf(UVAC3[i], 48 + i, SPEC.uvac)
  {
    UVACCodes();
    UVACPointers();
    Pow2Values();
  }

  lemma UVAC4Matches(i: nat)
    requires i < |UVAC4| && UVAC4[i].len > 0
    ensures |UVAC_COUNT| == 16 && CodeOf(UVAC4[i], 64 + i, SPEC.uvac)
  {
    UVACCodes();
    UVACPointers();
    Pow2Values();
  }

  lemma UVAC5Matches(i: nat)
    requires i < |UVAC5| && UVAC5[i].len > 0
    ensures |UVAC_COUNT| == 16 && CodeOf(UVAC5[i], 80 + i, SPEC.uvac)
  {
    UVACCodes();
    UVACPointers();
    Pow2Values();
  }

  lemma UVAC6Matches(i: nat)
    requires i < |UVAC6| && UVAC6[i].len > 0
    ensures |UVAC_COUNT| == 16 && CodeOf(UVAC6[i], 96 + i, SPEC.uvac)
  {
    UVACCodes();
    UVACPointers();
    Pow2Values();
  }

  lemma UVAC7Matches(i: nat)
    requires i < |UVAC7| && UVAC7[i].len > 0
    ensures |UVAC_COUNT| == 16 && CodeOf(UVAC7[i], 112 + i, SPEC.uvac)
  {
    UVACCodes();
    UVACPointers();
    Pow2Values();
  }

  lemma UVAC8Matches(i: nat)
    requires i < |UVAC8| && UVAC8[i].len > 0
    ensures |UVAC_COUNT| == 16 && CodeOf(UVAC8[i], 128 + i, SPEC.uvac)
  {
    UVACCodes();
    UVACPointers();
    Pow2Values();
  }

  lemma UVAC9Matches(i: nat)
    requires i < |UVAC9| && UVAC9[i].len > 0
    ensures |UVAC_COUNT| == 16 && CodeOf(UVAC9[i], 144 + i, SPEC.uvac)
  {
    UVACCodes();
    UVACPointers();
    Pow2Values();
  }

  lemma UVAC10Matches(i: nat)
    requires i < |UVAC10| && UVAC10[i].len > 0
    ensures |UVAC_COUNT| == 16 && CodeOf(UVAC10[i], 160 + i, SPEC.uvac)
  {
    UVACCodes();
    UVACPointers();
    Pow2Values();
  }

  lemma UVAC11Matches(i: nat)
    requires i < |UVAC11| && UVAC11[i].len > 0
    ensures |UVAC_COUNT| == 16 && CodeOf(UVAC11[i], 176 + i, SPEC.uvac)
  {
    UVACCodes();
    UVACPointers();
    Pow2Values();
  }

  lemma UVAC12Matches(i: nat)
    requires i < |UVAC12| && UVAC12[i].len > 0
    ensures |UVAC_COUNT| == 16 && CodeOf(UVAC12[i], 192 + i, SPEC.uvac)
  {
    UVACCodes();
    UVACPointers();
    Pow2Values();
  }

  lemma UVAC13Matches(i: nat)
    requires i < |UVAC13| && UVAC13[i].len > 0
    ensures |UVAC_COUNT| == 16 && CodeOf(UVAC13[i], 208 + i, SPEC.uvac)
  {
    UVACCodes();
    UVACPointers();
    Pow2Values();
  }

  lemma UVAC14Matches(i: nat)
    requires i < |UVAC14| && UVAC14[i].len > 0
    ensures |UVAC_COUNT| == 16 && CodeOf(UVAC14[i], 224 + i, SPEC.uvac)
  {
    UVACCodes();
    UVACPointers();
    Pow2Values();
  }

  lemma UVAC15Matches(i: nat)
    requires i < |UVAC15| && UVAC15[i].len > 0
    ensures |UVAC_COUNT| == 16 && CodeOf(UVAC15[i], 240 + i, SPEC.uvac)
  {
    UVACCodes();
    UVACPointers();
    Pow2Values();
  }

  lemma YACMatches(s: nat)
    requires s < 256 && TABLES.yac(s).len > 0
    ensures |YAC_COUNT| == 16 && CodeOf(TABLES.yac(s), s, SPEC.yac)
  {
    hide CodeOf, YAC_COUNT, Dht.MinCode, Dht.ValPtr, YAC0, YAC1, YAC2, YAC3, YAC4, YAC5, YAC6, YAC7, YAC8, YAC9, YAC10, YAC11, YAC12, YAC13, YAC14, YAC15;
    var run, i := s / 16, s % 16;
    match run
    case 0 => YAC0Matches(i);
    case 1 => YAC1Matches(i);
    case 2 => YAC2Matches(i);
    case 3 => YAC3Matches(i);
    case 4 => YAC4Matches(i);
    case 5 => YAC5Matches(i);
    case 6 => YAC6Matches(i);
    case 7 => YAC7Matches(i);
    case 8 => YAC8Matches(i);
    case 9 => YAC9Matches(i);
    case 10 => YAC10Matches(i);
    case 11 => YAC11Matches(i);
    case 12 => YAC12Matches(i);
    case 13 => YAC13Matches(i);
    case 14 => YAC14Matches(i);
    case 15 => YAC15Matches(i);
    case _ =>
  }

  lemma YACComplete(run: nat, size: nat)
    requires run < 16 && 1 <= size <= 10
    ensures TABLES.yac(RunSize(run, size)).len > 0
    ensures TABLES.yac(0).len > 0 && TABLES.yac(0xF0).len > 0
  {
    assert RunSize(run, size) / 16 == run && RunSize(run, size) % 16 == size;
  }

  lemma UVACMatches(s: nat)
    requires s < 256 && TABLES.uvac(s).len > 0
    ensures |UVAC_COUNT| == 16 && CodeOf(TABLES.uvac(s), s, SPEC.uvac)
  {
    hide CodeOf, UVAC_COUNT, Dht.MinCode, Dht.ValPtr, UVAC0, UVAC1, UVAC2, UVAC3, UVAC4, UVAC5, UVAC6, UVAC7, UVAC8, UVAC9, UVAC10, UVAC11, UVAC12, UVAC13, UVAC14, UVAC15;
    var run, i := s / 16, s % 16;
    match run
    case 0 => UVAC0Matches(i);
    case 1 => UVAC1Matches(i);
    case 2 => UVAC2Matches(i);
    case 3 => UVAC3Matches(i);
    case 4 => UVAC4Matches(i);
    case 5 => UVAC5Matches(i);
    case 6 => UVAC6Matches(i);
    case 7 => UVAC7Matches(i);
    case 8 => UVAC8Matches(i);
    case 9 => UVAC9Matches(i);
    case 10 => UVAC10Matches(i);
    case 11 => UVAC11Matches(i);
    case 12 => UVAC12Matches(i);
    case 13 => UVAC13Matches(i);
    case 14 => UVAC14Matches(i);
    case 15 => UVAC15Matches(i);
    case _ =>
  }

  lemma UVACComplete(run: nat, size: nat)
    requires run < 16 && 1 <= size <= 10
    ensures TABLES.uvac(RunSize(run, size)).len > 0
    ensures TABLES.uvac(0).len > 0 && TABLES.uvac(0xF0).len > 0
  {
    assert RunSize(run, size) / 16 == run && RunSize(run, size) % 16 == size;
  }

  lemma DcMatch()
    ensures DcTable(TABLES.ydc, SPEC.ydc) && DcTable(TABLES.uvdc, SPEC.uvdc)
  {
    hide CodeOf, Dht.MinCode, Dht.ValPtr;
    forall s: nat | s < 12
      ensures |YDC_COUNT| == |UVDC_COUNT| == 16 && CodeOf(TABLES.ydc(s), s, SPEC.ydc) && CodeOf(TABLES.uvdc(s), s, SPEC.uvdc)
    {
      YDCMatches(s);
      UVDCMatches(s);
    }
    YDCCodes();
    YDCPointers();
    UVDCCodes();
    UVDCPointers();
  }

  lemma AcMatch()
    ensures AcTable(TABLES.yac, SPEC.yac) && AcTable(TABLES.uvac, SPEC.uvac)
  {
    hide CodeOf, Dht.MinCode, Dht.ValPtr, YACRow, UVACRow, CodeAt, RunSize;
    YACCodes();
    YACPointers();
    UVACCodes();
    UVACPointers();
    forall s: nat | s < 256 && TABLES.yac(s).len > 0 ensures CodeOf(TABLES.yac(s), s, SPEC.yac) {
      YACMatches(s);
    }
    forall s: nat | s < 256 && TABLES.uvac(s).len > 0 ensures CodeOf(TABLES.uvac(s), s, SPEC.uvac) {
      UVACMatches(s);
    }
    forall run: nat, size: nat | run < 16 && 1 <= size <= 10
      ensures TABLES.yac(RunSize(run, size)).len > 0 && TABLES.uvac(RunSize(run, size)).len > 0
    {
      YACComplete(run, size);
      UVACComplete(run, size);
    }
    YACComplete(0, 1);
    UVACComplete(0, 1);
  }

  // Component 0 is coded by the luminance lists, components 1 and 2 by the
  // chrominance lists.
  const STANDARD: Spec := Spec([SPEC.ydc, SPEC.uvdc, SPEC.uvdc], [SPEC.yac, SPEC.uvac, SPEC.uvac])

  // The tables in the code are those the file header announces.
  lemma StandardTables()
    ensures Agree(TABLES, STANDARD)
  {
    hide DcTable, AcTable;
    DcMatch();
    AcMatch();
    CountSizes();
  }

  lemma CountSizes()
    ensures |YDC_COUNT| == |YAC_COUNT| == |UVDC_COUNT| == |UVAC_COUNT| == 16
  {
  }

  // A DC difference of 1 in either table
  lemma OneCoded()
    ensures DcBits(1, TABLES.Dc(0)) == [0, 1, 0, 1] && DcBits(1, TABLES.Dc(1)) == DcBits(1, TABLES.Dc(2)) == [0, 1, 1]
  {
  }
}
