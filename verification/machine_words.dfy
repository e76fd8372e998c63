/** The checksums as the program computes them, on 16- and 32-bit machine words: they are the shift registers of
    `Checksum` for every input, and have the published check values. */
module MachineWords {
  import opened Checksum
  import opened Codec

  // ---------------------------------------------------------------- a byte

  function Bit(on: bool, mask: bv8): bv8 {
    if on then mask else 0
  }

  function Word(b: Byte): bv8 {
    var o := Msb(b);
    Bit(o[0], 0x80) | Bit(o[1], 0x40) | Bit(o[2], 0x20) | Bit(o[3], 0x10)
    | Bit(o[4], 8) | Bit(o[5], 4) | Bit(o[6], 2) | Bit(o[7], 1)
  }

  lemma WordBits(b: Byte)
    ensures var o, w := Msb(b), Word(b);
            && (w & 0x80 != 0) == o[0] && (w & 0x40 != 0) == o[1]
            && (w & 0x20 != 0) == o[2] && (w & 0x10 != 0) == o[3]
            && (w & 0x8 != 0) == o[4] && (w & 0x4 != 0) == o[5]
            && (w & 0x2 != 0) == o[6] && (w & 0x1 != 0) == o[7]
  {
  }

  lemma {:induction false} LowIsHighReversed(b: nat, n: nat, i: nat)
    requires i < n
    ensures LowFirst(b, n)[i] == HighFirst(b, n)[n - 1 - i]
  {
    if i > 0 { LowIsHighReversed(b / 2, n - 1, i - 1); }
  }

  lemma LowWordBits(b: Byte)
    ensures var o, w := Lsb(b), Word(b);
            && (w & 0x1 != 0) == o[0] && (w & 0x2 != 0) == o[1]
            && (w & 0x4 != 0) == o[2] && (w & 0x8 != 0) == o[3]
            && (w & 0x10 != 0) == o[4] && (w & 0x20 != 0) == o[5]
            && (w & 0x40 != 0) == o[6] && (w & 0x80 != 0) == o[7]
  {
    WordBits(b);
    forall i | 0 <= i < 8 ensures Lsb(b)[i] == Msb(b)[7 - i] {
      LowIsHighReversed(b, 8, i);
    }
  }

  // ---------------------------------------------------------------- CRC-16

  function Shift16(c: bv16): bv16 {
    if c & 0x8000 != 0 then (c << 1) ^ 0x1021 else c << 1
  }

  function Byte16(c: bv16, b: bv8): bv16 {
    var x := c ^ ((b as bv16) << 8);
    Shift16(Shift16(Shift16(Shift16(Shift16(Shift16(Shift16(Shift16(x))))))))
  }

  function Word16(data: seq<Byte>): bv16 {
    if data == [] then 0xFFFF else Byte16(Word16(data[..|data| - 1]), Word(data[|data| - 1]))
  }

  predicate Is16(s: seq<bool>, c: bv16) {
    && |s| == 16
    && s[0] == (c & 0x8000 != 0) && s[1] == (c & 0x4000 != 0)
    && s[2] == (c & 0x2000 != 0) && s[3] == (c & 0x1000 != 0)
    && s[4] == (c & 0x0800 != 0) && s[5] == (c & 0x0400 != 0)
    && s[6] == (c & 0x0200 != 0) && s[7] == (c & 0x0100 != 0)
    && s[8] == (c & 0x0080 != 0) && s[9] == (c & 0x0040 != 0)
    && s[10] == (c & 0x0020 != 0) && s[11] == (c & 0x0010 != 0)
    && s[12] == (c & 0x0008 != 0) && s[13] == (c & 0x0004 != 0)
    && s[14] == (c & 0x0002 != 0) && s[15] == (c & 0x0001 != 0)
  }

  lemma ShiftedMasks16(c: bv16)
    ensures var d := c << 1;
            && (d & 0x8000 != 0) == (c & 0x4000 != 0) && (d & 0x4000 != 0) == (c & 0x2000 != 0)
            && (d & 0x2000 != 0) == (c & 0x1000 != 0) && (d & 0x1000 != 0) == (c & 0x800 != 0)
            && (d & 0x800 != 0) == (c & 0x400 != 0) && (d & 0x400 != 0) == (c & 0x200 != 0)
            && (d & 0x200 != 0) == (c & 0x100 != 0) && (d & 0x100 != 0) == (c & 0x80 != 0)
            && (d & 0x80 != 0) == (c & 0x40 != 0) && (d & 0x40 != 0) == (c & 0x20 != 0)
            && (d & 0x20 != 0) == (c & 0x10 != 0) && (d & 0x10 != 0) == (c & 0x8 != 0)
            && (d & 0x8 != 0) == (c & 0x4 != 0) && (d & 0x4 != 0) == (c & 0x2 != 0)
            && (d & 0x2 != 0) == (c & 0x1 != 0) && (d & 0x1 != 0) == false
  {
  }

  lemma PolynomialMasks16(d: bv16)
    ensures var x := d ^ 0x1021;
            && (x & 0x8000 != 0) == (d & 0x8000 != 0) && (x & 0x4000 != 0) == (d & 0x4000 != 0)
            && (x & 0x2000 != 0) == (d & 0x2000 != 0) && (x & 0x1000 != 0) == !(d & 0x1000 != 0)
            && (x & 0x800 != 0) == (d & 0x800 != 0) && (x & 0x400 != 0) == (d & 0x400 != 0)
            && (x & 0x200 != 0) == (d & 0x200 != 0) && (x & 0x100 != 0) == (d & 0x100 != 0)
            && (x & 0x80 != 0) == (d & 0x80 != 0) && (x & 0x40 != 0) == (d & 0x40 != 0)
            && (x & 0x20 != 0) == !(d & 0x20 != 0) && (x & 0x10 != 0) == (d & 0x10 != 0)
            && (x & 0x8 != 0) == (d & 0x8 != 0) && (x & 0x4 != 0) == (d & 0x4 != 0)
            && (x & 0x2 != 0) == (d & 0x2 != 0) && (x & 0x1 != 0) == !(d & 0x1 != 0)
  {
  }

  lemma Shifted16(s: seq<bool>, c: bv16)
    requires Is16(s, c)
    ensures Is16(s[1..] + [false], c << 1)
  {
    ShiftedMasks16(c);
  }

  lemma Toggled16(s: seq<bool>, d: bv16)
    requires Is16(s, d)
    ensures Is16(Xor(s, POLY16), d ^ 0x1021)
  {
    PolynomialMasks16(d);
  }

  lemma Shift16IsStep(s: seq<bool>, c: bv16)
    requires Is16(s, c)
    ensures Is16(Step(POLY16, s), Shift16(c))
  {
    Shifted16(s, c);
    Toggled16(s[1..] + [false], c << 1);
  }

  lemma FourShifts16(s: seq<bool>, c: bv16)
    requires Is16(s, c)
    ensures Is16(Step(POLY16, Step(POLY16, Step(POLY16, Step(POLY16, s)))), Shift16(Shift16(Shift16(Shift16(c)))))
  {
    var s1, c1 := Step(POLY16, s), Shift16(c);
    Shift16IsStep(s, c);
    var s2, c2 := Step(POLY16, s1), Shift16(c1);
    Shift16IsStep(s1, c1);
    var s3, c3 := Step(POLY16, s2), Shift16(c2);
    Shift16IsStep(s2, c2);
    Shift16IsStep(s3, c3);
  }

  lemma MixedMasks16(c: bv16, b: bv8)
    ensures var x := c ^ ((b as bv16) << 8);
            && (x & 0x8000 != 0) == ((c & 0x8000 != 0) != (b & 0x80 != 0))
            && (x & 0x4000 != 0) == ((c & 0x4000 != 0) != (b & 0x40 != 0))
            && (x & 0x2000 != 0) == ((c & 0x2000 != 0) != (b & 0x20 != 0))
            && (x & 0x1000 != 0) == ((c & 0x1000 != 0) != (b & 0x10 != 0))
            && (x & 0x800 != 0) == ((c & 0x800 != 0) != (b & 0x8 != 0))
            && (x & 0x400 != 0) == ((c & 0x400 != 0) != (b & 0x4 != 0))
            && (x & 0x200 != 0) == ((c & 0x200 != 0) != (b & 0x2 != 0))
            && (x & 0x100 != 0) == ((c & 0x100 != 0) != (b & 0x1 != 0))
            && (x & 0x80 != 0) == (c & 0x80 != 0)
            && (x & 0x40 != 0) == (c & 0x40 != 0)
            && (x & 0x20 != 0) == (c & 0x20 != 0)
            && (x & 0x10 != 0) == (c & 0x10 != 0)
            && (x & 0x8 != 0) == (c & 0x8 != 0)
            && (x & 0x4 != 0) == (c & 0x4 != 0)
            && (x & 0x2 != 0) == (c & 0x2 != 0)
            && (x & 0x1 != 0) == (c & 0x1 != 0)
  {
  }

  lemma Mixed16(s: seq<bool>, c: bv16, b: Byte)
    requires Is16(s, c)
    ensures Is16(Xor(s, Placed(Msb(b), 16)), c ^ ((Word(b) as bv16) << 8))
  {
    WordBits(b);
    MixedMasks16(c, Word(b));
  }

  lemma Byte16IsFeed(s: seq<bool>, c: bv16, b: Byte)
    requires Is16(s, c)
    ensures Is16(Feed(POLY16, s, Msb(b)), Byte16(c, Word(b)))
  {
    var t := Xor(s, Placed(Msb(b), 16));
    var x := c ^ ((Word(b) as bv16) << 8);
    Mixed16(s, c, b);
    var t4, x4 := Step(POLY16, Step(POLY16, Step(POLY16, Step(POLY16, t)))), Shift16(Shift16(Shift16(Shift16(x))));
    FourShifts16(t, x);
    FourShifts16(t4, x4);
    EightShifts(POLY16, t);
  }

  /** The CRC-16 loop on a 16-bit word computes the shift register, for every input. */
  lemma {:induction false} Word16IsCrc16(data: seq<Byte>)
    ensures Is16(Crc16Of(data), Word16(data))
  {
    if data == [] {
      assert MsbAll(data) == [];
    } else {
      var front, b := data[..|data| - 1], data[|data| - 1];
      Word16IsCrc16(front);
      Byte16IsFeed(Crc16Of(front), Word16(front), b);
      assert MsbAll(data)[..|front|] == MsbAll(front);
    }
  }

  // ---------------------------------------------------------------- CRC-32

  function Shift32(c: bv32): bv32 {
    if c & 1 != 0 then (c >> 1) ^ 0xEDB88320 else c >> 1
  }

  function Byte32(c: bv32, b: bv8): bv32 {
    var x := c ^ (b as bv32);
    Shift32(Shift32(Shift32(Shift32(Shift32(Shift32(Shift32(Shift32(x))))))))
  }

  function Word32(data: seq<Byte>): bv32 {
    if data == [] then 0xFFFFFFFF else Byte32(Word32(data[..|data| - 1]), Word(data[|data| - 1]))
  }

  predicate Is32(s: seq<bool>, c: bv32) {
    && |s| == 32
    && s[0] == (c & 0x1 != 0) && s[1] == (c & 0x2 != 0) && s[2] == (c & 0x4 != 0) && s[3] == (c & 0x8 != 0)
    && s[4] == (c & 0x10 != 0) && s[5] == (c & 0x20 != 0) && s[6] == (c & 0x40 != 0) && s[7] == (c & 0x80 != 0)
    && s[8] == (c & 0x100 != 0) && s[9] == (c & 0x200 != 0) && s[10] == (c & 0x400 != 0) && s[11] == (c & 0x800 != 0)
    && s[12] == (c & 0x1000 != 0) && s[13] == (c & 0x2000 != 0)
    && s[14] == (c & 0x4000 != 0) && s[15] == (c & 0x8000 != 0)
    && s[16] == (c & 0x10000 != 0) && s[17] == (c & 0x20000 != 0)
    && s[18] == (c & 0x40000 != 0) && s[19] == (c & 0x80000 != 0)
    && s[20] == (c & 0x100000 != 0) && s[21] == (c & 0x200000 != 0)
    && s[22] == (c & 0x400000 != 0) && s[23] == (c & 0x800000 != 0)
    && s[24] == (c & 0x1000000 != 0) && s[25] == (c & 0x2000000 != 0)
    && s[26] == (c & 0x4000000 != 0) && s[27] == (c & 0x8000000 != 0)
    && s[28] == (c & 0x10000000 != 0) && s[29] == (c & 0x20000000 != 0)
    && s[30] == (c & 0x40000000 != 0) && s[31] == (c & 0x80000000 != 0)
  }

  lemma ShiftedMasks32(c: bv32)
    ensures var d := c >> 1;
            && (d & 0x1 != 0) == (c & 0x2 != 0) && (d & 0x2 != 0) == (c & 0x4 != 0)
            && (d & 0x4 != 0) == (c & 0x8 != 0) && (d & 0x8 != 0) == (c & 0x10 != 0)
            && (d & 0x10 != 0) == (c & 0x20 != 0) && (d & 0x20 != 0) == (c & 0x40 != 0)
            && (d & 0x40 != 0) == (c & 0x80 != 0) && (d & 0x80 != 0) == (c & 0x100 != 0)
            && (d & 0x100 != 0) == (c & 0x200 != 0) && (d & 0x200 != 0) == (c & 0x400 != 0)
            && (d & 0x400 != 0) == (c & 0x800 != 0) && (d & 0x800 != 0) == (c & 0x1000 != 0)
            && (d & 0x1000 != 0) == (c & 0x2000 != 0) && (d & 0x2000 != 0) == (c & 0x4000 != 0)
            && (d & 0x4000 != 0) == (c & 0x8000 != 0) && (d & 0x8000 != 0) == (c & 0x10000 != 0)
            && (d & 0x10000 != 0) == (c & 0x20000 != 0) && (d & 0x20000 != 0) == (c & 0x40000 != 0)
            && (d & 0x40000 != 0) == (c & 0x80000 != 0) && (d & 0x80000 != 0) == (c & 0x100000 != 0)
            && (d & 0x100000 != 0) == (c & 0x200000 != 0) && (d & 0x200000 != 0) == (c & 0x400000 != 0)
            && (d & 0x400000 != 0) == (c & 0x800000 != 0) && (d & 0x800000 != 0) == (c & 0x1000000 != 0)
            && (d & 0x1000000 != 0) == (c & 0x2000000 != 0) && (d & 0x2000000 != 0) == (c & 0x4000000 != 0)
            && (d & 0x4000000 != 0) == (c & 0x8000000 != 0) && (d & 0x8000000 != 0) == (c & 0x10000000 != 0)
            && (d & 0x10000000 != 0) == (c & 0x20000000 != 0) && (d & 0x20000000 != 0) == (c & 0x40000000 != 0)
            && (d & 0x40000000 != 0) == (c & 0x80000000 != 0) && (d & 0x80000000 != 0) == false
  {
  }

  lemma PolynomialMasks32(d: bv32)
    ensures var x := d ^ 0xEDB88320;
            && (x & 0x1 != 0) == (d & 0x1 != 0) && (x & 0x2 != 0) == (d & 0x2 != 0)
            && (x & 0x4 != 0) == (d & 0x4 != 0) && (x & 0x8 != 0) == (d & 0x8 != 0)
            && (x & 0x10 != 0) == (d & 0x10 != 0) && (x & 0x20 != 0) == !(d & 0x20 != 0)
            && (x & 0x40 != 0) == (d & 0x40 != 0) && (x & 0x80 != 0) == (d & 0x80 != 0)
            && (x & 0x100 != 0) == !(d & 0x100 != 0) && (x & 0x200 != 0) == !(d & 0x200 != 0)
            && (x & 0x400 != 0) == (d & 0x400 != 0) && (x & 0x800 != 0) == (d & 0x800 != 0)
            && (x & 0x1000 != 0) == (d & 0x1000 != 0) && (x & 0x2000 != 0) == (d & 0x2000 != 0)
            && (x & 0x4000 != 0) == (d & 0x4000 != 0) && (x & 0x8000 != 0) == !(d & 0x8000 != 0)
            && (x & 0x10000 != 0) == (d & 0x10000 != 0) && (x & 0x20000 != 0) == (d & 0x20000 != 0)
            && (x & 0x40000 != 0) == (d & 0x40000 != 0) && (x & 0x80000 != 0) == !(d & 0x80000 != 0)
            && (x & 0x100000 != 0) == !(d & 0x100000 != 0) && (x & 0x200000 != 0) == !(d & 0x200000 != 0)
            && (x & 0x400000 != 0) == (d & 0x400000 != 0) && (x & 0x800000 != 0) == !(d & 0x800000 != 0)
            && (x & 0x1000000 != 0) == !(d & 0x1000000 != 0) && (x & 0x2000000 != 0) == (d & 0x2000000 != 0)
            && (x & 0x4000000 != 0) == !(d & 0x4000000 != 0) && (x & 0x8000000 != 0) == !(d & 0x8000000 != 0)
            && (x & 0x10000000 != 0) == (d & 0x10000000 != 0) && (x & 0x20000000 != 0) == !(d & 0x20000000 != 0)
            && (x & 0x40000000 != 0) == !(d & 0x40000000 != 0) && (x & 0x80000000 != 0) == !(d & 0x80000000 != 0)
  {
  }

  lemma Shifted32(s: seq<bool>, c: bv32)
    requires Is32(s, c)
    ensures Is32(s[1..] + [false], c >> 1)
  {
    ShiftedMasks32(c);
  }

  lemma Toggled32(s: seq<bool>, d: bv32)
    requires Is32(s, d)
    ensures Is32(Xor(s, POLY32), d ^ 0xEDB88320)
  {
    PolynomialMasks32(d);
  }

  lemma Shift32IsStep(s: seq<bool>, c: bv32)
    requires Is32(s, c)
    ensures Is32(Step(POLY32, s), Shift32(c))
  {
    Shifted32(s, c);
    Toggled32(s[1..] + [false], c >> 1);
  }

  lemma FourShifts32(s: seq<bool>, c: bv32)
    requires Is32(s, c)
    ensures Is32(Step(POLY32, Step(POLY32, Step(POLY32, Step(POLY32, s)))), Shift32(Shift32(Shift32(Shift32(c)))))
  {
    var s1, c1 := Step(POLY32, s), Shift32(c);
    Shift32IsStep(s, c);
    var s2, c2 := Step(POLY32, s1), Shift32(c1);
    Shift32IsStep(s1, c1);
    var s3, c3 := Step(POLY32, s2), Shift32(c2);
    Shift32IsStep(s2, c2);
    Shift32IsStep(s3, c3);
  }

  lemma MixedMasks32(c: bv32, b: bv8)
    ensures var x := c ^ (b as bv32);
            && (x & 0x1 != 0) == ((c & 0x1 != 0) != (b & 0x1 != 0))
            && (x & 0x2 != 0) == ((c & 0x2 != 0) != (b & 0x2 != 0))
            && (x & 0x4 != 0) == ((c & 0x4 != 0) != (b & 0x4 != 0))
            && (x & 0x8 != 0) == ((c & 0x8 != 0) != (b & 0x8 != 0))
            && (x & 0x10 != 0) == ((c & 0x10 != 0) != (b & 0x10 != 0))
            && (x & 0x20 != 0) == ((c & 0x20 != 0) != (b & 0x20 != 0))
            && (x & 0x40 != 0) == ((c & 0x40 != 0) != (b & 0x40 != 0))
            && (x & 0x80 != 0) == ((c & 0x80 != 0) != (b & 0x80 != 0))
            && (x & 0x100 != 0) == (c & 0x100 != 0)
            && (x & 0x200 != 0) == (c & 0x200 != 0)
            && (x & 0x400 != 0) == (c & 0x400 != 0)
            && (x & 0x800 != 0) == (c & 0x800 != 0)
            && (x & 0x1000 != 0) == (c & 0x1000 != 0)
            && (x & 0x2000 != 0) == (c & 0x2000 != 0)
            && (x & 0x4000 != 0) == (c & 0x4000 != 0)
            && (x & 0x8000 != 0) == (c & 0x8000 != 0)
            && (x & 0x10000 != 0) == (c & 0x10000 != 0)
            && (x & 0x20000 != 0) == (c & 0x20000 != 0)
            && (x & 0x40000 != 0) == (c & 0x40000 != 0)
            && (x & 0x80000 != 0) == (c & 0x80000 != 0)
            && (x & 0x100000 != 0) == (c & 0x100000 != 0)
            && (x & 0x200000 != 0) == (c & 0x200000 != 0)
            && (x & 0x400000 != 0) == (c & 0x400000 != 0)
            && (x & 0x800000 != 0) == (c & 0x800000 != 0)
            && (x & 0x1000000 != 0) == (c & 0x1000000 != 0)
            && (x & 0x2000000 != 0) == (c & 0x2000000 != 0)
            && (x & 0x4000000 != 0) == (c & 0x4000000 != 0)
            && (x & 0x8000000 != 0) == (c & 0x8000000 != 0)
            && (x & 0x10000000 != 0) == (c & 0x10000000 != 0)
            && (x & 0x20000000 != 0) == (c & 0x20000000 != 0)
            && (x & 0x40000000 != 0) == (c & 0x40000000 != 0)
            && (x & 0x80000000 != 0) == (c & 0x80000000 != 0)
  {
  }

  lemma Mixed32(s: seq<bool>, c: bv32, b: Byte)
    requires Is32(s, c)
    ensures Is32(Xor(s, Placed(Lsb(b), 32)), c ^ (Word(b) as bv32))
  {
    LowWordBits(b);
    MixedMasks32(c, Word(b));
  }

  lemma Byte32IsFeed(s: seq<bool>, c: bv32, b: Byte)
    requires Is32(s, c)
    ensures Is32(Feed(POLY32, s, Lsb(b)), Byte32(c, Word(b)))
  {
    var t := Xor(s, Placed(Lsb(b), 32));
    var x := c ^ (Word(b) as bv32);
    Mixed32(s, c, b);
    var t4, x4 := Step(POLY32, Step(POLY32, Step(POLY32, Step(POLY32, t)))), Shift32(Shift32(Shift32(Shift32(x))));
    FourShifts32(t, x);
    FourShifts32(t4, x4);
    EightShifts(POLY32, t);
  }

  lemma {:induction false} Word32IsRegister(data: seq<Byte>)
    ensures Is32(FeedAll(POLY32, Ones(32), LsbAll(data)), Word32(data))
  {
    if data == [] {
      assert LsbAll(data) == [];
    } else {
      var front, b := data[..|data| - 1], data[|data| - 1];
      Word32IsRegister(front);
      Byte32IsFeed(FeedAll(POLY32, Ones(32), LsbAll(front)), Word32(front), b);
      assert LsbAll(data)[..|front|] == LsbAll(front);
    }
  }

  lemma ComplementMasks(c: bv32)
    ensures var x := c ^ 0xFFFFFFFF;
            && (x & 0x1 != 0) == !(c & 0x1 != 0) && (x & 0x2 != 0) == !(c & 0x2 != 0)
            && (x & 0x4 != 0) == !(c & 0x4 != 0) && (x & 0x8 != 0) == !(c & 0x8 != 0)
            && (x & 0x10 != 0) == !(c & 0x10 != 0) && (x & 0x20 != 0) == !(c & 0x20 != 0)
            && (x & 0x40 != 0) == !(c & 0x40 != 0) && (x & 0x80 != 0) == !(c & 0x80 != 0)
            && (x & 0x100 != 0) == !(c & 0x100 != 0) && (x & 0x200 != 0) == !(c & 0x200 != 0)
            && (x & 0x400 != 0) == !(c & 0x400 != 0) && (x & 0x800 != 0) == !(c & 0x800 != 0)
            && (x & 0x1000 != 0) == !(c & 0x1000 != 0) && (x & 0x2000 != 0) == !(c & 0x2000 != 0)
            && (x & 0x4000 != 0) == !(c & 0x4000 != 0) && (x & 0x8000 != 0) == !(c & 0x8000 != 0)
            && (x & 0x10000 != 0) == !(c & 0x10000 != 0) && (x & 0x20000 != 0) == !(c & 0x20000 != 0)
            && (x & 0x40000 != 0) == !(c & 0x40000 != 0) && (x & 0x80000 != 0) == !(c & 0x80000 != 0)
            && (x & 0x100000 != 0) == !(c & 0x100000 != 0) && (x & 0x200000 != 0) == !(c & 0x200000 != 0)
            && (x & 0x400000 != 0) == !(c & 0x400000 != 0) && (x & 0x800000 != 0) == !(c & 0x800000 != 0)
            && (x & 0x1000000 != 0) == !(c & 0x1000000 != 0) && (x & 0x2000000 != 0) == !(c & 0x2000000 != 0)
            && (x & 0x4000000 != 0) == !(c & 0x4000000 != 0) && (x & 0x8000000 != 0) == !(c & 0x8000000 != 0)
            && (x & 0x10000000 != 0) == !(c & 0x10000000 != 0) && (x & 0x20000000 != 0) == !(c & 0x20000000 != 0)
            && (x & 0x40000000 != 0) == !(c & 0x40000000 != 0) && (x & 0x80000000 != 0) == !(c & 0x80000000 != 0)
  {
  }

  lemma Complemented(s: seq<bool>, c: bv32)
    requires Is32(s, c)
    ensures Is32(Xor(s, Ones(32)), c ^ 0xFFFFFFFF)
  {
    ComplementMasks(c);
  }

  /** The CRC-32 loop on a 32-bit word, complemented at the end, computes the shift register, for every input. */
  lemma Word32IsCrc32(data: seq<Byte>)
    ensures Is32(Crc32Of(data), Word32(data) ^ 0xFFFFFFFF)
  {
    Word32IsRegister(data);
    Complemented(FeedAll(POLY32, Ones(32), LsbAll(data)), Word32(data));
  }

  // ---------------------------------------------------------------- check values

  lemma HighBits()
    ensures HighFirst(3, 4) == [OFF, OFF, ON, ON]
  {
    assert HighFirst(3, 4) == HighFirst(1, 3) + [ON];
    assert HighFirst(1, 3) == HighFirst(0, 2) + [ON];
  }

  lemma DigitBits(b: Byte)
    requires 0x30 <= b <= 0x39
    ensures Msb(b) == [OFF, OFF, ON, ON, b >= 0x38, b / 4 % 2 == 1, b / 2 % 2 == 1, b % 2 == 1]
  {
    var b1, b2, b3 := b / 2, b / 4, b / 8;
    HighBits();
    assert b3 / 2 == 3 && HighFirst(b3, 5) == HighFirst(b3 / 2, 4) + [b3 % 2 == 1];
    assert b2 / 2 == b3 && HighFirst(b2, 6) == HighFirst(b3, 5) + [b2 % 2 == 1];
    assert b1 / 2 == b2 && HighFirst(b1, 7) == HighFirst(b2, 6) + [b1 % 2 == 1];
    assert HighFirst(b, 8) == HighFirst(b1, 7) + [b % 2 == 1];
  }

  lemma SameMasks(v: bv8, w: bv8)
    requires (v & 0x80 != 0) == (w & 0x80 != 0) && (v & 0x40 != 0) == (w & 0x40 != 0)
    requires (v & 0x20 != 0) == (w & 0x20 != 0) && (v & 0x10 != 0) == (w & 0x10 != 0)
    requires (v & 8 != 0) == (w & 8 != 0) && (v & 4 != 0) == (w & 4 != 0)
    requires (v & 2 != 0) == (w & 2 != 0) && (v & 1 != 0) == (w & 1 != 0)
    ensures v == w
  {
  }

  lemma WordOfDigit(b: Byte, w: bv8)
    requires 0x30 <= b <= 0x39 && w & 0xF0 == 0x30
    requires (w & 8 != 0) == (b >= 0x38) && (w & 4 != 0) == (b / 4 % 2 == 1)
    requires (w & 2 != 0) == (b / 2 % 2 == 1) && (w & 1 != 0) == (b % 2 == 1)
    ensures Word(b) == w
  {
    DigitBits(b);
    WordBits(b);
    var o := Msb(b);
    assert !o[0] && !o[1] && o[2] && o[3];
    assert w & 0x80 == 0 && w & 0x40 == 0 && w & 0x20 != 0 && w & 0x10 != 0;
    SameMasks(Word(b), w);
  }

  function DigitWord(i: nat): bv8 {
    if i == 0 then 0x31 else if i == 1 then 0x32 else if i == 2 then 0x33 else
    if i == 3 then 0x34 else if i == 4 then 0x35 else if i == 5 then 0x36 else
    if i == 6 then 0x37 else if i == 7 then 0x38 else 0x39
  }

  lemma DigitWords(i: nat)
    requires i < 9
    ensures Word(0x31 + i) == DigitWord(i)
  {
    WordOfDigit(0x31 + i, DigitWord(i));
  }

  lemma OneMore(d: seq<Byte>, i: nat)
    requires i < |d|
    ensures Word16(d[..i + 1]) == Byte16(Word16(d[..i]), Word(d[i]))
    ensures Word32(d[..i + 1]) == Byte32(Word32(d[..i]), Word(d[i]))
  {
    assert d[..i + 1][..i] == d[..i];
  }

  function Value16(i: nat): bv16 {
    if i == 0 then 0xFFFF else if i == 1 then 0xC782 else if i == 2 then 0x3DBA else
    if i == 3 then 0x5BCE else if i == 4 then 0x5349 else if i == 5 then 0x4560 else
    if i == 6 then 0x2EF4 else if i == 7 then 0x7718 else if i == 8 then 0xA12B else
    0x29B1
  }

  lemma Chain16(i: nat)
    requires i < 9
    ensures Byte16(Value16(i), DigitWord(i)) == Value16(i + 1)
  {
  }

  function Value32(i: nat): bv32 {
    if i == 0 then 0xFFFFFFFF else if i == 1 then 0x7C231048 else if i == 2 then 0xB0ACBB32 else
    if i == 3 then 0x77B79C2D else if i == 4 then 0x641C1F5C else if i == 5 then 0x340AC5E3 else
    if i == 6 then 0xF68D2C9E else if i == 7 then 0xAFFC9660 else if i == 8 then 0x651F2550 else
    0x340BC6D9
  }

  lemma Chain32(i: nat)
    requires i < 9
    ensures Byte32(Value32(i), DigitWord(i)) == Value32(i + 1)
  {
  }

  predicate Counts(d: seq<Byte>) {
    |d| == 9 && forall i :: 0 <= i < 9 ==> d[i] == 0x31 + i
  }

  lemma {:induction false} DigitsValue(d: seq<Byte>, n: nat)
    requires Counts(d) && n <= 9
    ensures Word16(d[..n]) == Value16(n) && Word32(d[..n]) == Value32(n)
  {
    if n > 0 {
      DigitsValue(d, n - 1);
      OneMore(d, n - 1);
      DigitWords(n - 1);
      Chain16(n - 1);
      Chain32(n - 1);
    }
  }

  /** The published check values of the two checksums, for the digits 1 to 9 as characters, and what they give
      for no input at all. */
  lemma CheckValues(d: seq<Byte>)
    requires d == [0x31, 0x32, 0x33, 0x34, 0x35, 0x36, 0x37, 0x38, 0x39]
    ensures Is16(Crc16Of(d), 0x29B1) && Is32(Crc32Of(d), 0xCBF43926)
    ensures Is16(Crc16Of([]), 0xFFFF) && Is32(Crc32Of([]), 0)
  {
    DigitsValue(d, 9);
    assert d[..9] == d;
    Word16IsCrc16(d);
    Word32IsCrc32(d);
    Word16IsCrc16([]);
    Word32IsCrc32([]);
  }

  // ---------------------------------------------------------------- a frame, byte by byte

  lemma LowMasks(c: bv16, lo: bv8)
    requires (lo & 0x80 != 0) == (c & 0x80 != 0) && (lo & 0x40 != 0) == (c & 0x40 != 0)
    requires (lo & 0x20 != 0) == (c & 0x20 != 0) && (lo & 0x10 != 0) == (c & 0x10 != 0)
    requires (lo & 8 != 0) == (c & 8 != 0) && (lo & 4 != 0) == (c & 4 != 0)
    requires (lo & 2 != 0) == (c & 2 != 0) && (lo & 1 != 0) == (c & 1 != 0)
    ensures lo as bv16 == c & 0xFF
  {
  }

  lemma HighMasks(c: bv16, hi: bv8)
    requires (hi & 0x80 != 0) == (c & 0x8000 != 0) && (hi & 0x40 != 0) == (c & 0x4000 != 0)
    requires (hi & 0x20 != 0) == (c & 0x2000 != 0) && (hi & 0x10 != 0) == (c & 0x1000 != 0)
    requires (hi & 8 != 0) == (c & 0x800 != 0) && (hi & 4 != 0) == (c & 0x400 != 0)
    requires (hi & 2 != 0) == (c & 0x200 != 0) && (hi & 1 != 0) == (c & 0x100 != 0)
    ensures hi as bv16 == c >> 8
  {
  }

  lemma LowHalf(s: seq<bool>, c: bv16, lo: Byte)
    requires Is16(s, c) && Msb(lo) == s[8..]
    ensures Word(lo) as bv16 == c & 0xFF
  {
    WordBits(lo);
    LowMasks(c, Word(lo));
  }

  lemma HighHalf(s: seq<bool>, c: bv16, hi: Byte)
    requires Is16(s, c) && Msb(hi) == s[..8]
    ensures Word(hi) as bv16 == c >> 8
  {
    WordBits(hi);
    HighMasks(c, Word(hi));
  }

  lemma TrailerBytes(h: Header, payload: seq<Byte>)
    requires |payload| <= MAX_PAYLOAD
    ensures var f, n := FrameOf(h, payload), |payload|;
            && Word(f[10 + n]) as bv16 == Word16(f[2..10 + n]) & 0xFF
            && Word(f[11 + n]) as bv16 == Word16(f[2..10 + n]) >> 8
  {
    var f, n := FrameOf(h, payload), |payload|;
    FrameSlices(h, payload);
    var data := f[2..10 + n];
    var s := Crc16Of(data);
    assert f[10 + n] == f[10 + n..12 + n][0] && f[11 + n] == f[10 + n..12 + n][1];
    Word16IsCrc16(data);
    FromMsbRoundTrip(s[8..]);
    LowHalf(s, Word16(data), f[10 + n]);
    FromMsbRoundTrip(s[..8]);
    HighHalf(s, Word16(data), f[11 + n]);
  }

  lemma HeaderBytes(h: Header, payload: seq<Byte>)
    requires |payload| <= MAX_PAYLOAD
    ensures var f, n := FrameOf(h, payload), |payload|;
            && f[0] == 0xE3 && f[1] == 0x10
            && f[2] == h.major && f[3] == h.family && f[4] == h.msgType
            && f[5] == h.queueClass && f[6] == h.flags && f[7] == h.frameSeq
            && f[8] + 256 * f[9] == n && f[10..10 + n] == payload
  {
    var f, n := FrameOf(h, payload), |payload|;
    FrameSlices(h, payload);
    assert forall i :: 0 <= i < 10 ==> f[i] == f[..10][i];
    assert f[8] == Le16(n)[0] && f[9] == Le16(n)[1];
  }

  /** The bytes of a frame as they go over the wire, with the 16-bit checksum word low byte first. */
  lemma WireLayout(h: Header, payload: seq<Byte>)
    requires |payload| <= 116
    ensures var f, n := FrameOf(h, payload), |payload|;
            && |f| == 12 + n && f[0] == 0xE3 && f[1] == 0x10
            && f[2] == h.major && f[3] == h.family && f[4] == h.msgType
            && f[5] == h.queueClass && f[6] == h.flags && f[7] == h.frameSeq
            && f[8] + 256 * f[9] == n && f[10..10 + n] == payload
            && Word(f[10 + n]) as bv16 == Word16(f[2..10 + n]) & 0xFF
            && Word(f[11 + n]) as bv16 == Word16(f[2..10 + n]) >> 8
  {
    HeaderBytes(h, payload);
    TrailerBytes(h, payload);
  }
}
