/** The CRC of PNG chunks: the bit-serial definition of the W3C PNG
    specification (Annex D), the 256-entry table of `stbiw__crc32`, and the
    table-driven loop. */
module Crc {
  import opened Bits

  predicate Odd(c: bv32) {
    c & 1 == 1
  }

  function Half(c: bv32): bv32 {
    c >> 1
  }

  function Xor(a: bv32, b: bv32): bv32 {
    a ^ b
  }

  const POLY: bv32 := 0xedb88320

  // Division by the CRC polynomial, one bit
  function Step(c: bv32): bv32 {
    if c & 1 == 1 then (c >> 1) ^ 0xedb88320 else c >> 1
  }

  lemma StepParts(c: bv32)
    ensures Step(c) == if Odd(c) then Xor(Half(c), POLY) else Half(c)
  {
  }

  function Step8(c: bv32): bv32 {
    Step(Step(Step(Step(Step(Step(Step(Step(c))))))))
  }

  // The register after the bytes of s, fed in bit by bit
  function Register(s: seq<byte>): bv32 {
    if s == [] then 0xffffffff else Step8(Xor(Register(s[..|s| - 1]), s[|s| - 1] as bv32))
  }

  // The CRC of a byte string
  function Crc32(s: seq<byte>): (r: nat)
    ensures r < 0x1_0000_0000
  {
    !Register(s) as int
  }

  // --------------------------------------------------------- one byte at a time

  lemma XorSym(x: bv32, y: bv32)
    ensures Xor(x, y) == Xor(y, x)
  {
  }

  lemma XorAssoc(x: bv32, y: bv32, z: bv32)
    ensures Xor(Xor(x, y), z) == Xor(x, Xor(y, z))
  {
  }

  lemma XorSwap(x: bv32, y: bv32, z: bv32)
    ensures Xor(Xor(x, y), z) == Xor(Xor(x, z), y)
  {
    hide Xor;
    XorAssoc(x, y, z);
    XorSym(y, z);
    XorAssoc(x, z, y);
  }

  lemma XorParts(x: bv32, y: bv32)
    requires !Odd(y)
    ensures Odd(Xor(x, y)) <==> Odd(x)
    ensures Half(Xor(x, y)) == Xor(Half(x), Half(y))
  {
  }

  // Even bits pass through a step unchanged.
  lemma StepXor(x: bv32, y: bv32)
    requires !Odd(y)
    ensures Step(Xor(x, y)) == Xor(Step(x), Half(y))
  {
    hide Odd, Half, Xor, POLY, Step;
    StepParts(x);
    StepParts(Xor(x, y));
    XorParts(x, y);
    XorSwap(Half(x), Half(y), POLY);
  }

  // The bits above the low byte of y pass through eight steps unchanged.
  lemma Step8Xor(x: bv32, y: bv32)
    requires !Odd(y) && !Odd(Half(y)) && !Odd(Half(Half(y))) && !Odd(Half(Half(Half(y))))
    requires var z := Half(Half(Half(Half(y)))); !Odd(z) && !Odd(Half(z)) && !Odd(Half(Half(z))) && !Odd(Half(Half(Half(z))))
    ensures Step8(Xor(x, y)) == Xor(Step8(x), Half(Half(Half(Half(Half(Half(Half(Half(y)))))))))
  {
    hide Odd, Half, Xor, Step;
    var y2 := Half(Half(y));
    var y4 := Half(Half(y2));
    var y6 := Half(Half(y4));
    var x2 := Step(Step(x));
    var x4 := Step(Step(x2));
    var x6 := Step(Step(x4));
    StepXor(x, y);
    StepXor(Step(x), Half(y));
    StepXor(x2, y2);
    StepXor(Step(x2), Half(y2));
    StepXor(x4, y4);
    StepXor(Step(x4), Half(y4));
    StepXor(x6, y6);
    StepXor(Step(x6), Half(y6));
  }

  lemma HighPart(c: bv32)
    ensures var y := c & 0xffffff00;
      && !Odd(y) && !Odd(Half(y)) && !Odd(Half(Half(y))) && !Odd(Half(Half(Half(y))))
      && var z := Half(Half(Half(Half(y))));
      && !Odd(z) && !Odd(Half(z)) && !Odd(Half(Half(z))) && !Odd(Half(Half(Half(z))))
      && Half(Half(Half(Half(z)))) == c >> 8
  {
  }

  lemma LowPart(c: bv32, b: bv32)
    requires b < 256
    ensures (b ^ (c & 0xff)) ^ (c & 0xffffff00) == c ^ b
    ensures b ^ (c & 0xff) < 256
  {
  }

  // ------------------------------------------------------------------ the table

  const ROW0: seq<bv32> :=
    [0x00000000, 0x77073096, 0xee0e612c, 0x990951ba, 0x076dc419, 0x706af48f, 0xe963a535, 0x9e6495a3,
     0x0edb8832, 0x79dcb8a4, 0xe0d5e91e, 0x97d2d988, 0x09b64c2b, 0x7eb17cbd, 0xe7b82d07, 0x90bf1d91]

  const ROW1: seq<bv32> :=
    [0x1db71064, 0x6ab020f2, 0xf3b97148, 0x84be41de, 0x1adad47d, 0x6ddde4eb, 0xf4d4b551, 0x83d385c7,
     0x136c9856, 0x646ba8c0, 0xfd62f97a, 0x8a65c9ec, 0x14015c4f, 0x63066cd9, 0xfa0f3d63, 0x8d080df5]

  const ROW2: seq<bv32> :=
    [0x3b6e20c8, 0x4c69105e, 0xd56041e4, 0xa2677172, 0x3c03e4d1, 0x4b04d447, 0xd20d85fd, 0xa50ab56b,
     0x35b5a8fa, 0x42b2986c, 0xdbbbc9d6, 0xacbcf940, 0x32d86ce3, 0x45df5c75, 0xdcd60dcf, 0xabd13d59]

  const ROW3: seq<bv32> :=
    [0x26d930ac, 0x51de003a, 0xc8d75180, 0xbfd06116, 0x21b4f4b5, 0x56b3c423, 0xcfba9599, 0xb8bda50f,
     0x2802b89e, 0x5f058808, 0xc60cd9b2, 0xb10be924, 0x2f6f7c87, 0x58684c11, 0xc1611dab, 0xb6662d3d]

  const ROW4: seq<bv32> :=
    [0x76dc4190, 0x01db7106, 0x98d220bc, 0xefd5102a, 0x71b18589, 0x06b6b51f, 0x9fbfe4a5, 0xe8b8d433,
     0x7807c9a2, 0x0f00f934, 0x9609a88e, 0xe10e9818, 0x7f6a0dbb, 0x086d3d2d, 0x91646c97, 0xe6635c01]

  const ROW5: seq<bv32> :=
    [0x6b6b51f4, 0x1c6c6162, 0x856530d8, 0xf262004e, 0x6c0695ed, 0x1b01a57b, 0x8208f4c1, 0xf50fc457,
     0x65b0d9c6, 0x12b7e950, 0x8bbeb8ea, 0xfcb9887c, 0x62dd1ddf, 0x15da2d49, 0x8cd37cf3, 0xfbd44c65]

  const ROW6: seq<bv32> :=
    [0x4db26158, 0x3ab551ce, 0xa3bc0074, 0xd4bb30e2, 0x4adfa541, 0x3dd895d7, 0xa4d1c46d, 0xd3d6f4fb,
     0x4369e96a, 0x346ed9fc, 0xad678846, 0xda60b8d0, 0x44042d73, 0x33031de5, 0xaa0a4c5f, 0xdd0d7cc9]

  const ROW7: seq<bv32> :=
    [0x5005713c, 0x270241aa, 0xbe0b1010, 0xc90c2086, 0x5768b525, 0x206f85b3, 0xb966d409, 0xce61e49f,
     0x5edef90e, 0x29d9c998, 0xb0d09822, 0xc7d7a8b4, 0x59b33d17, 0x2eb40d81, 0xb7bd5c3b, 0xc0ba6cad]

  const ROW8: seq<bv32> :=
    [0xedb88320, 0x9abfb3b6, 0x03b6e20c, 0x74b1d29a, 0xead54739, 0x9dd277af, 0x04db2615, 0x73dc1683,
     0xe3630b12, 0x94643b84, 0x0d6d6a3e, 0x7a6a5aa8, 0xe40ecf0b, 0x9309ff9d, 0x0a00ae27, 0x7d079eb1]

  const ROW9: seq<bv32> :=
    [0xf00f9344, 0x8708a3d2, 0x1e01f268, 0x6906c2fe, 0xf762575d, 0x806567cb, 0x196c3671, 0x6e6b06e7,
     0xfed41b76, 0x89d32be0, 0x10da7a5a, 0x67dd4acc, 0xf9b9df6f, 0x8ebeeff9, 0x17b7be43, 0x60b08ed5]

  const ROW10: seq<bv32> :=
    [0xd6d6a3e8, 0xa1d1937e, 0x38d8c2c4, 0x4fdff252, 0xd1bb67f1, 0xa6bc5767, 0x3fb506dd, 0x48b2364b,
     0xd80d2bda, 0xaf0a1b4c, 0x36034af6, 0x41047a60, 0xdf60efc3, 0xa867df55, 0x316e8eef, 0x4669be79]

  const ROW11: seq<bv32> :=
    [0xcb61b38c, 0xbc66831a, 0x256fd2a0, 0x5268e236, 0xcc0c7795, 0xbb0b4703, 0x220216b9, 0x5505262f,
     0xc5ba3bbe, 0xb2bd0b28, 0x2bb45a92, 0x5cb36a04, 0xc2d7ffa7, 0xb5d0cf31, 0x2cd99e8b, 0x5bdeae1d]

  const ROW12: seq<bv32> :=
    [0x9b64c2b0, 0xec63f226, 0x756aa39c, 0x026d930a, 0x9c0906a9, 0xeb0e363f, 0x72076785, 0x05005713,
     0x95bf4a82, 0xe2b87a14, 0x7bb12bae, 0x0cb61b38, 0x92d28e9b, 0xe5d5be0d, 0x7cdcefb7, 0x0bdbdf21]

  const ROW13: seq<bv32> :=
    [0x86d3d2d4, 0xf1d4e242, 0x68ddb3f8, 0x1fda836e, 0x81be16cd, 0xf6b9265b, 0x6fb077e1, 0x18b74777,
     0x88085ae6, 0xff0f6a70, 0x66063bca, 0x11010b5c, 0x8f659eff, 0xf862ae69, 0x616bffd3, 0x166ccf45]

  const ROW14: seq<bv32> :=
    [0xa00ae278, 0xd70dd2ee, 0x4e048354, 0x3903b3c2, 0xa7672661, 0xd06016f7, 0x4969474d, 0x3e6e77db,
     0xaed16a4a, 0xd9d65adc, 0x40df0b66, 0x37d83bf0, 0xa9bcae53, 0xdebb9ec5, 0x47b2cf7f, 0x30b5ffe9]

  const ROW15: seq<bv32> :=
    [0xbdbdf21c, 0xcabac28a, 0x53b39330, 0x24b4a3a6, 0xbad03605, 0xcdd70693, 0x54de5729, 0x23d967bf,
     0xb3667a2e, 0xc4614ab8, 0x5d681b02, 0x2a6f2b94, 0xb40bbe37, 0xc30c8ea1, 0x5a05df1b, 0x2d02ef8d]

  // crc_table[x], sixteen entries a row
  function CrcTable(x: bv32): bv32
    requires x < 256
  {
    if x < 16 then Entry(ROW0, x, 0)
    else if x < 32 then Entry(ROW1, x, 16)
    else if x < 48 then Entry(ROW2, x, 32)
    else if x < 64 then Entry(ROW3, x, 48)
    else if x < 80 then Entry(ROW4, x, 64)
    else if x < 96 then Entry(ROW5, x, 80)
    else if x < 112 then Entry(ROW6, x, 96)
    else if x < 128 then Entry(ROW7, x, 112)
    else if x < 144 then Entry(ROW8, x, 128)
    else if x < 160 then Entry(ROW9, x, 144)
    else if x < 176 then Entry(ROW10, x, 160)
    else if x < 192 then Entry(ROW11, x, 176)
    else if x < 208 then Entry(ROW12, x, 192)
    else if x < 224 then Entry(ROW13, x, 208)
    else if x < 240 then Entry(ROW14, x, 224)
    else Entry(ROW15, x, 240)
  }

  function Entry(row: seq<bv32>, x: bv32, base: bv32): bv32
    requires base <= x && (x - base) as int < |row|
  {
    row[(x - base) as int]
  }

  lemma Row0Right(x: bv32)
    requires 0 <= x < 16
    ensures Entry(ROW0, x, 0) == Step8(x)
  {
  }

  lemma Row1Right(x: bv32)
    requires 16 <= x < 32
    ensures Entry(ROW1, x, 16) == Step8(x)
  {
  }

  lemma Row2Right(x: bv32)
    requires 32 <= x < 48
    ensures Entry(ROW2, x, 32) == Step8(x)
  {
  }

  lemma Row3Right(x: bv32)
    requires 48 <= x < 64
    ensures Entry(ROW3, x, 48) == Step8(x)
  {
  }

  lemma Row4Right(x: bv32)
    requires 64 <= x < 80
    ensures Entry(ROW4, x, 64) == Step8(x)
  {
  }

  lemma Row5Right(x: bv32)
    requires 80 <= x < 96
    ensures Entry(ROW5, x, 80) == Step8(x)
  {
  }

  lemma Row6Right(x: bv32)
    requires 96 <= x < 112
    ensures Entry(ROW6, x, 96) == Step8(x)
  {
  }

  lemma Row7Right(x: bv32)
    requires 112 <= x < 128
    ensures Entry(ROW7, x, 112) == Step8(x)
  {
  }

  lemma Row8Right(x: bv32)
    requires 128 <= x < 144
    ensures Entry(ROW8, x, 128) == Step8(x)
  {
  }

  lemma Row9Right(x: bv32)
    requires 144 <= x < 160
    ensures Entry(ROW9, x, 144) == Step8(x)
  {
  }

  lemma Row10Right(x: bv32)
    requires 160 <= x < 176
    ensures Entry(ROW10, x, 160) == Step8(x)
  {
  }

  lemma Row11Right(x: bv32)
    requires 176 <= x < 192
    ensures Entry(ROW11, x, 176) == Step8(x)
  {
  }

  lemma Row12Right(x: bv32)
    requires 192 <= x < 208
    ensures Entry(ROW12, x, 192) == Step8(x)
  {
  }

  lemma Row13Right(x: bv32)
    requires 208 <= x < 224
    ensures Entry(ROW13, x, 208) == Step8(x)
  {
  }

  lemma Row14Right(x: bv32)
    requires 224 <= x < 240
    ensures Entry(ROW14, x, 224) == Step8(x)
  {
  }

  lemma Row15Right(x: bv32)
    requires 240 <= x < 256
    ensures Entry(ROW15, x, 240) == Step8(x)
  {
  }

  // Every entry is the register of its index after eight steps.
  lemma TableRight(x: bv32)
    requires x < 256
    ensures CrcTable(x) == Step8(x)
  {
    hide Entry, Step8;
    if x < 16 {
      Row0Right(x);
    } else if x < 32 {
      Row1Right(x);
    } else if x < 48 {
      Row2Right(x);
    } else if x < 64 {
      Row3Right(x);
    } else if x < 80 {
      Row4Right(x);
    } else if x < 96 {
      Row5Right(x);
    } else if x < 112 {
      Row6Right(x);
    } else if x < 128 {
      Row7Right(x);
    } else if x < 144 {
      Row8Right(x);
    } else if x < 160 {
      Row9Right(x);
    } else if x < 176 {
      Row10Right(x);
    } else if x < 192 {
      Row11Right(x);
    } else if x < 208 {
      Row12Right(x);
    } else if x < 224 {
      Row13Right(x);
    } else if x < 240 {
      Row14Right(x);
    } else {
      Row15Right(x);
    }
  }

  // The check value of this CRC: that of the digits 1 to 9
  lemma CheckValue()
    ensures Crc32([0x31, 0x32, 0x33, 0x34, 0x35, 0x36, 0x37, 0x38, 0x39]) == 0xcbf43926
  {
    hide Register, Step8, Xor;
    CheckSteps();
    var s: seq<byte> := [0x31, 0x32, 0x33, 0x34, 0x35, 0x36, 0x37, 0x38, 0x39];
    RegisterStart(s);
    RegisterOn(s, 0, 0xffffffff, 0x31);
    RegisterOn(s, 1, 0x7c231048, 0x32);
    RegisterOn(s, 2, 0xb0acbb32, 0x33);
    RegisterOn(s, 3, 0x77b79c2d, 0x34);
    RegisterOn(s, 4, 0x641c1f5c, 0x35);
    RegisterOn(s, 5, 0x340ac5e3, 0x36);
    RegisterOn(s, 6, 0xf68d2c9e, 0x37);
    RegisterOn(s, 7, 0xaffc9660, 0x38);
    RegisterOn(s, 8, 0x651f2550, 0x39);
    assert s[..9] == s;
    assert !(0x340bc6d9 as bv32) == 0xcbf43926;
  }

  lemma RegisterOn(s: seq<byte>, k: nat, before: bv32, b: bv32)
    requires k < |s| && Register(s[..k]) == before && s[k] == b as int
    ensures Register(s[..k + 1]) == Step8(Xor(before, b))
  {
    hide Register, Step8, Xor;
    RegisterPush(s, k);
  }

  lemma CheckSteps()
    ensures Step8(Xor(0xffffffff, 0x31)) == 0x7c231048
    ensures Step8(Xor(0x7c231048, 0x32)) == 0xb0acbb32
    ensures Step8(Xor(0xb0acbb32, 0x33)) == 0x77b79c2d
    ensures Step8(Xor(0x77b79c2d, 0x34)) == 0x641c1f5c
    ensures Step8(Xor(0x641c1f5c, 0x35)) == 0x340ac5e3
    ensures Step8(Xor(0x340ac5e3, 0x36)) == 0xf68d2c9e
    ensures Step8(Xor(0xf68d2c9e, 0x37)) == 0xaffc9660
    ensures Step8(Xor(0xaffc9660, 0x38)) == 0x651f2550
    ensures Step8(Xor(0x651f2550, 0x39)) == 0x340bc6d9
  {
  }

  // ------------------------------------------------------------------- the loop

  // (crc >> 8) ^ crc_table[b ^ (crc & 0xff)]
  function TableStep(crc: bv32, b: bv32): bv32
    requires b < 256
  {
    LowPart(crc, b);
    (crc >> 8) ^ CrcTable(b ^ (crc & 0xff))
  }

  // One step of the table loop is eight steps of the register.
  lemma TableStepRight(c: bv32, b: bv32)
    requires b < 256
    ensures TableStep(c, b) == Step8(Xor(c, b))
  {
    hide CrcTable, Step8, Odd, Half;
    var x, y := b ^ (c & 0xff), c & 0xffffff00;
    LowPart(c, b);
    HighPart(c);
    Step8Xor(x, y);
    TableRight(x);
    XorSym(Step8(x), c >> 8);
  }

  lemma RegisterPush(s: seq<byte>, k: nat)
    requires k < |s|
    ensures Register(s[..k + 1]) == Step8(Xor(Register(s[..k]), s[k] as bv32))
  {
    hide Step8, Xor;
    assert s[..k + 1][..k] == s[..k];
  }

  // stbiw__crc32
  method TableCrc(buffer: seq<byte>) returns (r: nat)
    ensures r == Crc32(buffer)
  {
    hide Step8, Xor, TableStep, Register;
    var crc: bv32 := 0xffffffff;
    RegisterStart(buffer);
    for i := 0 to |buffer|
      invariant crc == Register(buffer[..i])
    {
      var b := buffer[i] as bv32;
      ByteSmall(buffer[i]);
      TableStepRight(crc, b);
      RegisterPush(buffer, i);
      crc := TableStep(crc, b);
    }
    assert buffer[..|buffer|] == buffer;
    r := !crc as int;
  }

  lemma RegisterStart(s: seq<byte>)
    ensures Register(s[..0]) == 0xffffffff
  {
  }

  lemma ByteSmall(b: byte)
    ensures b as bv32 < 256
  {
  }
}
