/** The table-driven CRC-32 of `bench/kernels/crc32.c` against the bit-serial definition. */
module Crc {

  const POLY: bv32 := 0xEDB8_8320
  const INIT: bv32 := 0xFFFF_FFFF

  // ----- the bit-serial definition -----

  /** Shift one bit out of the register and reduce (section 8 of RFC 1952, reflected). */
  function Shift(c: bv32): bv32 {
    if c & 1 == 1 then POLY ^ (c >> 1) else c >> 1
  }

  function BitWord(b: bool): bv32 {
    if b then 1 else 0
  }

  function FeedBit(c: bv32, b: bool): bv32 {
    Shift(c ^ BitWord(b))
  }

  function FeedBits(c: bv32, bits: seq<bool>): bv32
    decreases |bits|
  {
    if bits == [] then c else FeedBits(FeedBit(c, bits[0]), bits[1..])
  }

  /** The bits of a byte, least significant first. */
  function Bits(b: bv8): seq<bool> {
    [b & 1 != 0, b & 2 != 0, b & 4 != 0, b & 8 != 0, b & 16 != 0, b & 32 != 0, b & 64 != 0, b & 128 != 0]
  }

  function MessageBits(data: seq<bv8>): seq<bool> {
    if data == [] then [] else MessageBits(data[..|data| - 1]) + Bits(data[|data| - 1])
  }

  /** The CRC of a message: all its bits through the register, complemented before and after. */
  function Crc(data: seq<bv8>): bv32 {
    FeedBits(INIT, MessageBits(data)) ^ INIT
  }

  // ----- shifting is linear -----

  predicate IsXor(x: bv32, y: bv32, z: bv32) {
    z == x ^ y
  }

  lemma {:induction false} ShrXor(x: bv32, y: bv32)
    ensures (x ^ y) >> 1 == (x >> 1) ^ (y >> 1)
  {
  }

  lemma {:induction false} LowXor(x: bv32, y: bv32)
    ensures ((x ^ y) & 1 == 1) <==> ((x & 1 == 1) != (y & 1 == 1))
  {
  }

  lemma {:induction false} XorSwap(p: bv32, x: bv32, y: bv32)
    ensures p ^ (x ^ y) == (p ^ x) ^ y && p ^ (x ^ y) == x ^ (p ^ y) && (p ^ x) ^ (p ^ y) == x ^ y
  {
  }

  lemma {:induction false} ShiftXor(x: bv32, y: bv32)
    ensures Shift(x ^ y) == Shift(x) ^ Shift(y)
  {
    ShrXor(x, y);
    LowXor(x, y);
    XorSwap(POLY, x >> 1, y >> 1);
  }

  lemma {:induction false} ShiftLinear(x: bv32, y: bv32, z: bv32)
    requires IsXor(x, y, z)
    ensures IsXor(Shift(x), Shift(y), Shift(z))
  {
    ShiftXor(x, y);
  }

  function ShiftN(c: bv32, n: nat): bv32
    decreases n
  {
    if n == 0 then c else ShiftN(Shift(c), n - 1)
  }

  lemma {:induction false} ShiftNLinear(x: bv32, y: bv32, z: bv32, n: nat)
    requires IsXor(x, y, z)
    ensures IsXor(ShiftN(x, n), ShiftN(y, n), ShiftN(z, n))
    decreases n
  {
    if n > 0 {
      ShiftLinear(x, y, z);
      ShiftNLinear(Shift(x), Shift(y), Shift(z), n - 1);
    }
  }

  // ----- a byte at a time -----

  /** The register after eight shifts, the byte having been added first. */
  function FeedByte(c: bv32, b: bv8): bv32 {
    ShiftN(c ^ (b as bv32), 8)
  }

  /** The byte with its first `j` bits gone. */
  function Rest(b: bv8, j: nat): bv32 {
    var w := b as bv32;
    if j == 0 then w else if j == 1 then w >> 1 else if j == 2 then w >> 2 else if j == 3 then w >> 3
    else if j == 4 then w >> 4 else if j == 5 then w >> 5 else if j == 6 then w >> 6 else if j == 7 then w >> 7
    else 0
  }

  /** `v` is `w` shifted up by one, with nothing lost. */
  predicate Doubles(v: bv32, w: bv32) {
    v == w << 1 && w & 0x8000_0000 == 0
  }

  /** `r` is `w` shifted up by one with `bit` below it. */
  predicate Splits(r: bv32, bit: bool, w: bv32) {
    Doubles(w << 1, w) && IsXor(BitWord(bit), w << 1, r)
  }

  lemma {:induction false} FirstBitSplit(b: bv8)
    ensures Splits(Rest(b, 0), Bits(b)[0], Rest(b, 1))
  {
  }

  lemma {:induction false} LowBitSplit(b: bv8, j: nat)
    requires 0 < j < 4
    ensures Splits(Rest(b, j), Bits(b)[j], Rest(b, j + 1))
  {
    if j == 1 { } else if j == 2 { } else { assert j == 3; }
  }

  lemma {:induction false} HighBitSplit(b: bv8, j: nat)
    requires 4 <= j < 8
    ensures Splits(Rest(b, j), Bits(b)[j], Rest(b, j + 1))
  {
    if j == 4 { } else if j == 5 { } else if j == 6 { } else { assert j == 7; }
  }

  lemma {:induction false} BitSplit(b: bv8, j: nat)
    requires j < 8
    ensures Splits(Rest(b, j), Bits(b)[j], Rest(b, j + 1))
  {
    if j == 0 { FirstBitSplit(b); } else if j < 4 { LowBitSplit(b, j); } else { HighBitSplit(b, j); }
  }

  /** A zero shifted out leaves the rest. */
  lemma {:induction false} ShiftEven(v: bv32, w: bv32)
    requires Doubles(v, w)
    ensures Shift(v) == w
  {
  }

  lemma {:induction false} XorRegroup(c: bv32, x: bv32, v: bv32, r: bv32, u: bv32, z: bv32)
    requires IsXor(x, v, r) && IsXor(c, r, z) && IsXor(c, x, u)
    ensures IsXor(u, v, z)
  {
  }

  /** Feeding one bit of a word and adding the others afterwards, or adding the whole word first. */
  lemma {:induction false} FeedOne(c: bv32, x: bv32, v: bv32, r: bv32, w: bv32, u: bv32, z: bv32)
    requires Doubles(v, w) && IsXor(x, v, r) && IsXor(c, r, z) && IsXor(c, x, u)
    ensures IsXor(Shift(u), w, Shift(z))
  {
    XorRegroup(c, x, v, r, u, z);
    ShiftLinear(u, v, z);
    ShiftEven(v, w);
  }

  lemma {:induction false} FeedBitIs(c: bv32, bit: bool, u: bv32)
    requires IsXor(c, BitWord(bit), u)
    ensures FeedBit(c, bit) == Shift(u)
  {
  }

  lemma {:induction false} FeedSplit(c: bv32, bit: bool, r: bv32, w: bv32, u: bv32, z: bv32)
    requires Splits(r, bit, w) && IsXor(c, r, z) && IsXor(c, BitWord(bit), u)
    ensures IsXor(FeedBit(c, bit), w, Shift(z))
  {
    FeedOne(c, BitWord(bit), w << 1, r, w, u, z);
    FeedBitIs(c, bit, u);
  }

  lemma {:induction false} FeedSuffix(c: bv32, b: bv8, j: nat, z: bv32)
    requires j <= 8 && IsXor(c, Rest(b, j), z)
    ensures FeedBits(c, Bits(b)[j..]) == ShiftN(z, 8 - j)
    decreases 8 - j
  {
    if j == 8 {
      assert IsXor(c, 0, z);
    } else {
      var bit := Bits(b)[j];
      BitSplit(b, j);
      FeedSplit(c, bit, Rest(b, j), Rest(b, j + 1), c ^ BitWord(bit), z);
      FeedSuffix(FeedBit(c, bit), b, j + 1, Shift(z));
      assert Bits(b)[j..][1..] == Bits(b)[j + 1..];
    }
  }

  /** Adding a byte and shifting eight times feeds its bits in order. */
  lemma {:induction false} FeedByteIsBits(c: bv32, b: bv8)
    ensures FeedByte(c, b) == FeedBits(c, Bits(b))
  {
    FeedSuffix(c, b, 0, c ^ (b as bv32));
    assert Bits(b)[0..] == Bits(b);
  }

  lemma {:induction false} FeedConcat(c: bv32, xs: seq<bool>, ys: seq<bool>)
    ensures FeedBits(c, xs + ys) == FeedBits(FeedBits(c, xs), ys)
    decreases |xs|
  {
    if xs == [] {
      assert xs + ys == ys;
    } else {
      assert (xs + ys)[1..] == xs[1..] + ys;
      FeedConcat(FeedBit(c, xs[0]), xs[1..], ys);
    }
  }

  function FeedBytes(c: bv32, data: seq<bv8>): bv32 {
    if data == [] then c else FeedByte(FeedBytes(c, data[..|data| - 1]), data[|data| - 1])
  }

  lemma {:induction false} FeedBytesIsBits(c: bv32, data: seq<bv8>)
    ensures FeedBytes(c, data) == FeedBits(c, MessageBits(data))
    decreases |data|
  {
    if data != [] {
      var init, b := data[..|data| - 1], data[|data| - 1];
      FeedBytesIsBits(c, init);
      FeedConcat(c, MessageBits(init), Bits(b));
      FeedByteIsBits(FeedBytes(c, init), b);
    }
  }

  // ----- the table -----

  function TableEntry(i: bv32): bv32 {
    ShiftN(i, 8)
  }

  /** The word with `n` bits shifted out. */
  function Drop(w: bv32, n: nat): bv32 {
    if n == 0 then w else if n == 1 then w >> 1 else if n == 2 then w >> 2 else if n == 3 then w >> 3
    else if n == 4 then w >> 4 else if n == 5 then w >> 5 else if n == 6 then w >> 6 else if n == 7 then w >> 7
    else w >> 8
  }

  predicate LowZero(w: bv32, n: nat) {
    if n == 0 then true else if n == 1 then w & 1 == 0 else if n == 2 then w & 3 == 0 else if n == 3 then w & 7 == 0
    else if n == 4 then w & 15 == 0 else if n == 5 then w & 31 == 0 else if n == 6 then w & 63 == 0
    else if n == 7 then w & 127 == 0 else w & 255 == 0
  }

  lemma {:induction false} ShiftZero(w: bv32, n: nat)
    requires 1 <= n <= 8 && LowZero(w, n)
    ensures Shift(w) == w >> 1 && LowZero(w >> 1, n - 1) && Drop(w, n) == Drop(w >> 1, n - 1)
  {
  }

  /** Zeros are shifted out without reduction. */
  lemma {:induction false} ShiftZeros(w: bv32, n: nat)
    requires n <= 8 && LowZero(w, n)
    ensures ShiftN(w, n) == Drop(w, n)
    decreases n
  {
    if n > 0 {
      ShiftZero(w, n);
      ShiftZeros(w >> 1, n - 1);
    }
  }

  lemma {:induction false} SplitWord(c: bv32, b: bv8, x: bv32, low: bv32, high: bv32)
    requires x == c ^ (b as bv32) && low == x & 0xFF && high == x & 0xFFFF_FF00
    ensures IsXor(low, high, x) && LowZero(high, 8) && Drop(high, 8) == c >> 8
  {
  }

  /** One table look-up replaces eight shifts. */
  lemma {:induction false} TableStep(c: bv32, b: bv8)
    ensures IsXor(TableEntry((c ^ (b as bv32)) & 0xFF), c >> 8, FeedByte(c, b))
  {
    var x := c ^ (b as bv32);
    var low, high := x & 0xFF, x & 0xFFFF_FF00;
    SplitWord(c, b, x, low, high);
    ShiftNLinear(low, high, x, 8);
    ShiftZeros(high, 8);
  }

  // ----- the CRC of a combination of messages -----

  function XorBytes(a: seq<bv8>, b: seq<bv8>): (c: seq<bv8>)
    requires |a| == |b|
    ensures |c| == |a| && forall i :: 0 <= i < |c| ==> c[i] == a[i] ^ b[i]
  {
    seq(|a|, i requires 0 <= i < |a| => a[i] ^ b[i])
  }

  lemma {:induction false} AddBytes(x: bv32, y: bv32, z: bv32, a: bv8, b: bv8, c: bv8)
    requires IsXor(x, y, z) && c == a ^ b
    ensures IsXor(x ^ (a as bv32), y ^ (b as bv32), z ^ (c as bv32))
  {
  }

  lemma {:induction false} FeedByteLinear(x: bv32, y: bv32, z: bv32, a: bv8, b: bv8, c: bv8)
    requires IsXor(x, y, z) && c == a ^ b
    ensures IsXor(FeedByte(x, a), FeedByte(y, b), FeedByte(z, c))
  {
    AddBytes(x, y, z, a, b, c);
    ShiftNLinear(x ^ (a as bv32), y ^ (b as bv32), z ^ (c as bv32), 8);
  }

  lemma {:induction false} FeedBytesLinear(x: bv32, y: bv32, z: bv32, a: seq<bv8>, b: seq<bv8>, c: seq<bv8>)
    requires IsXor(x, y, z) && |a| == |b| && c == XorBytes(a, b)
    ensures IsXor(FeedBytes(x, a), FeedBytes(y, b), FeedBytes(z, c))
    decreases |a|
  {
    if a != [] {
      var n := |a| - 1;
      assert c[..n] == XorBytes(a[..n], b[..n]);
      FeedBytesLinear(x, y, z, a[..n], b[..n], c[..n]);
      FeedByteLinear(FeedBytes(x, a[..n]), FeedBytes(y, b[..n]), FeedBytes(z, c[..n]), a[n], b[n], c[n]);
    }
  }

  lemma {:induction false} XorThree(ra: bv32, rb: bv32, rc: bv32, rab: bv32, rabc: bv32)
    requires IsXor(ra, rb, rab) && IsXor(rab, rc, rabc)
    ensures (ra ^ INIT) ^ (rb ^ INIT) ^ (rc ^ INIT) == rabc ^ INIT
  {
  }

  /** CRCs combine: the complements cancel in a sum of three messages of one length. */
  lemma {:induction false} CrcOfSum(a: seq<bv8>, b: seq<bv8>, c: seq<bv8>)
    requires |a| == |b| == |c|
    ensures Crc(a) ^ Crc(b) ^ Crc(c) == Crc(XorBytes(XorBytes(a, b), c))
  {
    var ab := XorBytes(a, b);
    var abc := XorBytes(ab, c);
    FeedBytesLinear(INIT, INIT, 0, a, b, ab);
    FeedBytesLinear(0, INIT, INIT, ab, c, abc);
    FeedBytesIsBits(INIT, a);
    FeedBytesIsBits(INIT, b);
    FeedBytesIsBits(INIT, c);
    FeedBytesIsBits(INIT, abc);
    XorThree(FeedBytes(INIT, a), FeedBytes(INIT, b), FeedBytes(INIT, c), FeedBytes(0, ab), FeedBytes(INIT, abc));
  }

  // ----- the polynomial -----

  /** The exponents of the CRC-32 generator (section 8 of RFC 1952). */
  const GENERATOR: set<nat> := {32, 26, 23, 22, 16, 12, 11, 10, 8, 7, 5, 4, 2, 1, 0}

  /** The bit of the register that holds the coefficient of `x^e`: reflected, so the highest power is in
      the lowest bit. */
  function Place(e: nat): bv32 {
    if e == 0 then 0x8000_0000 else Place(e - 1) >> 1
  }

  predicate Has(c: bv32, m: bv32) {
    c & m != 0
  }

  /** The coefficient of `x^e` in the polynomial the register holds. */
  predicate Coefficient(c: bv32, e: nat) {
    Has(c, Place(e))
  }

  predicate OneBit(m: bv32) {
    m & (m - 1) == 0
  }

  /** `m` is the one bit for `x^e`, and `POLY` has it if and only if the generator has `x^e`. */
  predicate Fits(e: nat, m: bv32) {
    && m == Place(e) && OneBit(m) && (m & 1 == 1 <==> e == 31)
    && (Has(POLY, m) <==> e in GENERATOR)
  }

  lemma {:induction false} PlacesFromZero()
    ensures Place(0) == 0x8000_0000 && Place(1) == 0x4000_0000 && Place(2) == 0x2000_0000 && Place(3) == 0x1000_0000
    ensures Fits(0, 0x8000_0000) && Fits(1, 0x4000_0000) && Fits(2, 0x2000_0000) && Fits(3, 0x1000_0000)
  {
  }

  lemma {:induction false} PlacesFromFour()
    requires Place(3) == 0x1000_0000
    ensures Place(4) == 0x0800_0000 && Place(5) == 0x0400_0000 && Place(6) == 0x0200_0000 && Place(7) == 0x0100_0000
    ensures Fits(4, 0x0800_0000) && Fits(5, 0x0400_0000) && Fits(6, 0x0200_0000) && Fits(7, 0x0100_0000)
  {
  }

  lemma {:induction false} PlacesFromEight()
    requires Place(7) == 0x0100_0000
    ensures Place(8) == 0x0080_0000 && Place(9) == 0x0040_0000 && Place(10) == 0x0020_0000 && Place(11) == 0x0010_0000
    ensures Fits(8, 0x0080_0000) && Fits(9, 0x0040_0000) && Fits(10, 0x0020_0000) && Fits(11, 0x0010_0000)
  {
  }

  lemma {:induction false} PlacesFromTwelve()
    requires Place(11) == 0x0010_0000
    ensures Place(12) == 0x0008_0000 && Place(13) == 0x0004_0000 && Place(14) == 0x0002_0000 && Place(15) == 0x0001_0000
    ensures Fits(12, 0x0008_0000) && Fits(13, 0x0004_0000) && Fits(14, 0x0002_0000) && Fits(15, 0x0001_0000)
  {
  }

  lemma {:induction false} PlacesFromSixteen()
    requires Place(15) == 0x0001_0000
    ensures Place(16) == 0x0000_8000 && Place(17) == 0x0000_4000 && Place(18) == 0x0000_2000 && Place(19) == 0x0000_1000
    ensures Fits(16, 0x0000_8000) && Fits(17, 0x0000_4000) && Fits(18, 0x0000_2000) && Fits(19, 0x0000_1000)
  {
  }

  lemma {:induction false} PlacesFromTwenty()
    requires Place(19) == 0x0000_1000
    ensures Place(20) == 0x0000_0800 && Place(21) == 0x0000_0400 && Place(22) == 0x0000_0200 && Place(23) == 0x0000_0100
    ensures Fits(20, 0x0000_0800) && Fits(21, 0x0000_0400) && Fits(22, 0x0000_0200) && Fits(23, 0x0000_0100)
  {
  }

  lemma {:induction false} PlacesFromTwentyFour()
    requires Place(23) == 0x0000_0100
    ensures Place(24) == 0x0000_0080 && Place(25) == 0x0000_0040 && Place(26) == 0x0000_0020 && Place(27) == 0x0000_0010
    ensures Fits(24, 0x0000_0080) && Fits(25, 0x0000_0040) && Fits(26, 0x0000_0020) && Fits(27, 0x0000_0010)
  {
  }

  lemma {:induction false} PlacesFromTwentyEight()
    requires Place(27) == 0x0000_0010
    ensures Place(28) == 0x0000_0008 && Place(29) == 0x0000_0004 && Place(30) == 0x0000_0002 && Place(31) == 0x0000_0001
    ensures Fits(28, 0x0000_0008) && Fits(29, 0x0000_0004) && Fits(30, 0x0000_0002) && Fits(31, 0x0000_0001)
  {
  }

  lemma {:induction false} PlaceFits(e: nat)
    requires e < 32
    ensures Fits(e, Place(e)) && Place(31) == 1
  {
    PlacesFromZero();
    PlacesFromFour();
    PlacesFromEight();
    PlacesFromTwelve();
    PlacesFromSixteen();
    PlacesFromTwenty();
    PlacesFromTwentyFour();
    PlacesFromTwentyEight();
  }

  lemma {:induction false} HalfTop(c: bv32)
    ensures !Has(c >> 1, 0x8000_0000)
  {
  }

  lemma {:induction false} HalfBit(c: bv32, h: bv32, m: bv32)
    requires h & 1 == 0 && m == h >> 1
    ensures Has(c >> 1, m) <==> Has(c, h)
  {
  }

  lemma {:induction false} LowBit(c: bv32)
    ensures Has(c, 1) <==> c & 1 == 1
  {
  }

  lemma {:induction false} SumBit(x: bv32, y: bv32, z: bv32, m: bv32)
    requires OneBit(m) && z == x ^ y
    ensures Has(z, m) <==> Has(x, m) != Has(y, m)
  {
  }

  lemma {:induction false} ShiftBit(c: bv32, m: bv32)
    requires OneBit(m)
    ensures Has(Shift(c), m) <==> Has(c >> 1, m) != (Has(c, 1) && Has(POLY, m))
  {
    LowBit(c);
    SumBit(POLY, c >> 1, POLY ^ (c >> 1), m);
  }

  /** The places of the coefficients of `x^e` and, if there is one, of the power before it. */
  predicate Neighbours(e: nat, m: bv32, h: bv32) {
    Fits(e, m) && (e == 0 || (Fits(e - 1, h) && m == h >> 1))
  }

  lemma {:induction false} HalfHas(c: bv32, e: nat, m: bv32, h: bv32)
    requires e < 32 && Neighbours(e, m, h)
    ensures Has(c >> 1, m) <==> e > 0 && Has(c, h)
  {
    if e == 0 { HalfTop(c); } else { HalfBit(c, h, m); }
  }

  /** Each coefficient moves up by one, and the generator is taken away if a term of degree 32 arises. */
  predicate TimesX(c: bv32, d: bv32, e: nat) {
    Coefficient(d, e) <==> (e > 0 && Coefficient(c, e - 1)) != (Coefficient(c, 31) && e in GENERATOR)
  }

  /** A shift of the register is multiplication by `x` modulo the generator. */
  lemma {:induction false} ShiftIsTimesX(c: bv32, e: nat)
    requires e < 32
    ensures TimesX(c, Shift(c), e)
  {
    PlaceFits(e);
    var m := Place(e);
    var h := if e == 0 then 0 else Place(e - 1);
    if e > 0 { PlaceFits(e - 1); }
    HalfHas(c, e, m, h);
    ShiftBit(c, m);
  }

  // ----- known answers -----

  lemma {:induction false} FourShifts(c: bv32, n: nat, m: nat)
    requires m == n + 4
    ensures ShiftN(c, m) == ShiftN(Shift(Shift(Shift(Shift(c)))), n)
  {
    var d := Shift(c);
    assert ShiftN(c, m) == ShiftN(d, n + 3);
    var e := Shift(d);
    assert ShiftN(d, n + 3) == ShiftN(e, n + 2);
    var f := Shift(e);
    assert ShiftN(e, n + 2) == ShiftN(f, n + 1);
  }

  lemma {:induction false} EightShifts(c: bv32, d: bv32)
    requires d == Shift(Shift(Shift(Shift(c))))
    ensures ShiftN(c, 8) == Shift(Shift(Shift(Shift(d))))
  {
    FourShifts(c, 4, 8);
    FourShifts(d, 0, 4);
  }

  /** Entries of the table. */
  lemma {:induction false} KnownEntries()
    ensures TableEntry(1) == 0x7707_3096 && TableEntry(128) == 0xEDB8_8320 && TableEntry(255) == 0x2D02_EF8D
  {
    EightShifts(1, 0x1DB7_1064);
    EightShifts(128, 0x0000_0008);
    EightShifts(255, 0xBDBD_F213);
  }

  lemma {:induction false} KnownStepsToThree()
    ensures FeedByte(0xFFFF_FFFF, 0x31) == 0x7C23_1048
    ensures FeedByte(0x7C23_1048, 0x32) == 0xB0AC_BB32
    ensures FeedByte(0xB0AC_BB32, 0x33) == 0x77B7_9C2D
  {
    EightShifts(0xFFFF_FFFF ^ 0x31, 0xAFF5_1D84);
    EightShifts(0x7C23_1048 ^ 0x32, 0xD114_92EF);
    EightShifts(0xB0AC_BB32 ^ 0x33, 0x16BD_DBD4);
  }

  lemma {:induction false} KnownStepsToSix()
    ensures FeedByte(0x77B7_9C2D, 0x34) == 0x641C_1F5C
    ensures FeedByte(0x641C_1F5C, 0x35) == 0x340A_C5E3
    ensures FeedByte(0x340A_C5E3, 0x36) == 0xF68D_2C9E
  {
    EightShifts(0x77B7_9C2D ^ 0x34, 0xF774_EA85);
    EightShifts(0x641C_1F5C ^ 0x35, 0xF64E_52B2);
    EightShifts(0x340A_C5E3 ^ 0x36, 0x682B_FDA9);
  }

  lemma {:induction false} KnownStepsToNine()
    ensures FeedByte(0xF68D_2C9E, 0x37) == 0xAFFC_9660
    ensures FeedByte(0xAFFC_9660, 0x38) == 0x651F_2550
    ensures FeedByte(0x651F_2550, 0x39) == 0x340B_C6D9
  {
    EightShifts(0xF68D_2C9E ^ 0x37, 0xFF67_418E);
    EightShifts(0xAFFC_9660 ^ 0x38, 0xE747_4A45);
    EightShifts(0x651F_2550 ^ 0x39, 0xF65E_6112);
  }

  lemma {:induction false} FeedBytesSnoc(c: bv32, data: seq<bv8>, b: bv8, r: bv32)
    requires FeedByte(FeedBytes(c, data), b) == r
    ensures FeedBytes(c, data + [b]) == r
  {
    assert (data + [b])[..|data|] == data;
  }

  lemma {:induction false} KnownToThree(data: seq<bv8>)
    requires FeedBytes(INIT, data) == 0xFFFF_FFFF
    ensures FeedBytes(INIT, data + [0x31] + [0x32] + [0x33]) == 0x77B7_9C2D
  {
    KnownStepsToThree();
    FeedBytesSnoc(INIT, data, 0x31, 0x7C23_1048);
    FeedBytesSnoc(INIT, data + [0x31], 0x32, 0xB0AC_BB32);
    FeedBytesSnoc(INIT, data + [0x31] + [0x32], 0x33, 0x77B7_9C2D);
  }

  lemma {:induction false} KnownToSix(data: seq<bv8>)
    requires FeedBytes(INIT, data) == 0x77B7_9C2D
    ensures FeedBytes(INIT, data + [0x34] + [0x35] + [0x36]) == 0xF68D_2C9E
  {
    KnownStepsToSix();
    FeedBytesSnoc(INIT, data, 0x34, 0x641C_1F5C);
    FeedBytesSnoc(INIT, data + [0x34], 0x35, 0x340A_C5E3);
    FeedBytesSnoc(INIT, data + [0x34] + [0x35], 0x36, 0xF68D_2C9E);
  }

  lemma {:induction false} KnownToNine(data: seq<bv8>)
    requires FeedBytes(INIT, data) == 0xF68D_2C9E
    ensures FeedBytes(INIT, data + [0x37] + [0x38] + [0x39]) == 0x340B_C6D9
  {
    KnownStepsToNine();
    FeedBytesSnoc(INIT, data, 0x37, 0xAFFC_9660);
    FeedBytesSnoc(INIT, data + [0x37], 0x38, 0x651F_2550);
    FeedBytesSnoc(INIT, data + [0x37] + [0x38], 0x39, 0x340B_C6D9);
  }

  lemma {:induction false} NineDigits(low: seq<bv8>, mid: seq<bv8>, all: seq<bv8>)
    requires low == [] + [0x31] + [0x32] + [0x33]
    requires mid == low + [0x34] + [0x35] + [0x36] && all == mid + [0x37] + [0x38] + [0x39]
    ensures all == [0x31, 0x32, 0x33, 0x34, 0x35, 0x36, 0x37, 0x38, 0x39]
  {
  }

  /** The check value of CRC-32: the digits 1 to 9 in ASCII. */
  lemma {:induction false} KnownAnswer()
    ensures Crc([0x31, 0x32, 0x33, 0x34, 0x35, 0x36, 0x37, 0x38, 0x39]) == 0xCBF4_3926
  {
    var low: seq<bv8> := [] + [0x31] + [0x32] + [0x33];
    var mid := low + [0x34] + [0x35] + [0x36];
    var all := mid + [0x37] + [0x38] + [0x39];
    KnownToThree([]);
    KnownToSix(low);
    KnownToNine(mid);
    FeedBytesIsBits(INIT, all);
    NineDigits(low, mid, all);
  }
}
