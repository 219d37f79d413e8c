/**
 * CRC32C as `packages/gcs/src/crc32c.ts` computes it: a 256-entry table, one lookup a byte, and the big-endian value
 * in base64. The specification is the division of the message by the Castagnoli polynomial, one bit at a time
 * (section 12.1 of RFC 3720): the bits of a byte from the lowest, the register from its highest bit, and the
 * remainder's bits reversed.
 */
module Crc32c {

  import opened Bytes
  import Base64

  // ---------- the specification: polynomial division ----------

  /** The polynomial 0x11EDC6F41, its leading term left out: it is the bit that falls off the register. */
  const CASTAGNOLI: bv32 := 0x1EDC6F41

  /** One message bit: the remainder takes it in at the top, and the polynomial is taken away when a one falls off. */
  function Divide(r: bv32, bit: bv32): bv32 {
    if (r >> 31) ^ bit == 1 then (r << 1) ^ CASTAGNOLI else r << 1
  }

  /** The lowest `n` bits of `bits`, the lowest first. */
  function DivideBits(r: bv32, bits: bv32, n: nat): bv32
    decreases n
  {
    if n == 0 then r else DivideBits(Divide(r, bits & 1), bits >> 1, n - 1)
  }

  function Remainder(r: bv32, message: Bytes): bv32 {
    if message == [] then r
    else DivideBits(Remainder(r, message[..|message| - 1]), message[|message| - 1] as bv32, 8)
  }

  /** The bits of a word in the opposite order. */
  function Reverse(x: bv32): bv32 {
    var a := ((x >> 1) & 0x5555_5555) | ((x & 0x5555_5555) << 1);
    var b := ((a >> 2) & 0x3333_3333) | ((a & 0x3333_3333) << 2);
    var c := ((b >> 4) & 0x0f0f_0f0f) | ((b & 0x0f0f_0f0f) << 4);
    var d := ((c >> 8) & 0x00ff_00ff) | ((c & 0x00ff_00ff) << 8);
    (d >> 16) | (d << 16)
  }

  /** Bit `i`, the lowest being bit 0. */
  function Bit(x: bv32, i: bv32): bv32
    requires i < 32
  {
    (x >> i) & 1
  }

  /** Each bit of the result is the one as far from the other end. */
  lemma ReverseReverses(x: bv32, i: bv32)
    requires i < 32
    ensures Bit(Reverse(x), i) == Bit(x, 31 - i)
  {
  }

  function Crc(message: Bytes): bv32 {
    Xor(Reverse(Remainder(0xffff_ffff, message)), 0xffff_ffff)
  }

  function BigEndian(v: bv32): Bytes {
    [((v >> 24) & 0xff) as bv8, ((v >> 16) & 0xff) as bv8, ((v >> 8) & 0xff) as bv8, (v & 0xff) as bv8]
  }

  // ---------- the standard's own example ----------

  /** The remainders of no zero byte, of one, and so on, to 32. */
  const ZEROS: seq<bv32> := [
    0xffff_ffff, 0x7535_41b5, 0xb411_7970, 0xa13a_d9f9, 0x1c2d_19ed, 0x5391_b15d, 0xaec1_ab15,
    0x49a9_8322, 0xaeb2_ebce, 0x3ae9_5822, 0x29f0_4438, 0xe092_74aa, 0x4552_f92b, 0xd85a_25c2,
    0x7013_2991, 0xf7d4_8f35, 0xa8a6_f1bd, 0x683a_48a4, 0xdb4c_5b6c, 0x4509_3652, 0x8395_5cc2,
    0x76f9_a58c, 0x5b91_f1b3, 0x5862_3f1d, 0x88c8_20de, 0xfe02_7247, 0x9664_96f4, 0x1184_da98,
    0x691c_6c10, 0xe3b4_802d, 0x40c2_cfe8, 0x2dc1_3487, 0xaa93_76ae
  ]

  function Eight(r: bv32): bv32 {
    DivideBits(r, 0, 8)
  }

  lemma ZerosTo8()
    ensures |ZEROS| == 33 && forall n :: 0 <= n < 8 ==> Eight(ZEROS[n]) == ZEROS[n + 1]
  {
    assert Eight(0xffff_ffff) == 0x7535_41b5;
    assert Eight(0x7535_41b5) == 0xb411_7970;
    assert Eight(0xb411_7970) == 0xa13a_d9f9;
    assert Eight(0xa13a_d9f9) == 0x1c2d_19ed;
    assert Eight(0x1c2d_19ed) == 0x5391_b15d;
    assert Eight(0x5391_b15d) == 0xaec1_ab15;
    assert Eight(0xaec1_ab15) == 0x49a9_8322;
    assert Eight(0x49a9_8322) == 0xaeb2_ebce;
  }

  lemma ZerosTo16()
    ensures |ZEROS| == 33 && forall n :: 8 <= n < 16 ==> Eight(ZEROS[n]) == ZEROS[n + 1]
  {
    assert Eight(0xaeb2_ebce) == 0x3ae9_5822;
    assert Eight(0x3ae9_5822) == 0x29f0_4438;
    assert Eight(0x29f0_4438) == 0xe092_74aa;
    assert Eight(0xe092_74aa) == 0x4552_f92b;
    assert Eight(0x4552_f92b) == 0xd85a_25c2;
    assert Eight(0xd85a_25c2) == 0x7013_2991;
    assert Eight(0x7013_2991) == 0xf7d4_8f35;
    assert Eight(0xf7d4_8f35) == 0xa8a6_f1bd;
  }

  lemma ZerosTo24()
    ensures |ZEROS| == 33 && forall n :: 16 <= n < 24 ==> Eight(ZEROS[n]) == ZEROS[n + 1]
  {
    assert Eight(0xa8a6_f1bd) == 0x683a_48a4;
    assert Eight(0x683a_48a4) == 0xdb4c_5b6c;
    assert Eight(0xdb4c_5b6c) == 0x4509_3652;
    assert Eight(0x4509_3652) == 0x8395_5cc2;
    assert Eight(0x8395_5cc2) == 0x76f9_a58c;
    assert Eight(0x76f9_a58c) == 0x5b91_f1b3;
    assert Eight(0x5b91_f1b3) == 0x5862_3f1d;
    assert Eight(0x5862_3f1d) == 0x88c8_20de;
  }

  lemma ZerosTo32()
    ensures |ZEROS| == 33 && forall n :: 24 <= n < 32 ==> Eight(ZEROS[n]) == ZEROS[n + 1]
  {
    assert Eight(0x88c8_20de) == 0xfe02_7247;
    assert Eight(0xfe02_7247) == 0x9664_96f4;
    assert Eight(0x9664_96f4) == 0x1184_da98;
    assert Eight(0x1184_da98) == 0x691c_6c10;
    assert Eight(0x691c_6c10) == 0xe3b4_802d;
    assert Eight(0xe3b4_802d) == 0x40c2_cfe8;
    assert Eight(0x40c2_cfe8) == 0x2dc1_3487;
    assert Eight(0x2dc1_3487) == 0xaa93_76ae;
  }

  lemma {:induction false} ZerosRemain(n: nat)
    requires n <= 32 && |ZEROS| == 33
    ensures Remainder(0xffff_ffff, seq(n, _ => 0)) == ZEROS[n]
  {
    if n > 0 {
      ZerosTo8();
      ZerosTo16();
      ZerosTo24();
      ZerosTo32();
      hide Eight, Divide;
      ZerosRemain(n - 1);
      var zeros: Bytes := seq(n, _ => 0);
      assert zeros[..n - 1] == seq(n - 1, _ => 0);
      assert Remainder(0xffff_ffff, zeros) == Eight(ZEROS[n - 1]);
    }
  }

  /** 32 bytes of zeros have the checksum the standard gives (section B.4 of RFC 3720). */
  lemma StandardExample()
    ensures Crc(seq(32, _ => 0)) == 0x8a91_36aa
  {
    ZerosTo8();
    ZerosRemain(32);
    assert Reverse(0xaa93_76ae) == 0x756e_c955;
  }

  // ---------- a word as a number ----------

  function One(isOne: bool): nat {
    if isOne then 1 else 0
  }

  predicate Odd(x: bv32) {
    x & 1 == 1
  }

  function Half(x: bv32): bv32 {
    x >> 1
  }

  function LastByte(x: bv32): bv8 {
    (x & 0xff) as bv8
  }

  /** The number the lowest `n` bits of a word spell. */
  function Number(x: bv32, n: nat): nat {
    if n == 0 then 0 else 2 * Number(Half(x), n - 1) + One(Odd(x))
  }

  predicate BitOf(b: bv8, k: bv8)
    requires k < 8
  {
    (b >> k) & 1 == 1
  }

  lemma ByteBits(b: bv8)
    ensures b as int ==
            One(BitOf(b, 0)) + 2 * One(BitOf(b, 1)) + 4 * One(BitOf(b, 2)) + 8 * One(BitOf(b, 3))
            + 16 * One(BitOf(b, 4)) + 32 * One(BitOf(b, 5)) + 64 * One(BitOf(b, 6)) + 128 * One(BitOf(b, 7))
  {
  }

  lemma LowBits(x: bv32)
    ensures var b := LastByte(x);
            && (BitOf(b, 0) <==> Odd(x)) && (BitOf(b, 1) <==> Odd(Half(x))) && (BitOf(b, 2) <==> Odd(Half(Half(x))))
            && (BitOf(b, 3) <==> Odd(Half(Half(Half(x)))))
  {
  }

  lemma NextBits(x: bv32)
    ensures var (b, x4) := (LastByte(x), Half(Half(Half(Half(x)))));
            && (BitOf(b, 4) <==> Odd(x4)) && (BitOf(b, 5) <==> Odd(Half(x4))) && (BitOf(b, 6) <==> Odd(Half(Half(x4))))
            && (BitOf(b, 7) <==> Odd(Half(Half(Half(x4)))))
  {
  }

  lemma EightHalves(x: bv32)
    ensures Half(Half(Half(Half(Half(Half(Half(Half(x)))))))) == DropByte(x)
  {
  }

  /** The lowest byte, bit by bit. */
  lemma LastByteBits(x: bv32)
    ensures var (x1, x2) := (Half(x), Half(Half(x)));
            var (x3, x4) := (Half(x2), Half(Half(x2)));
            var (x5, x6) := (Half(x4), Half(Half(x4)));
            LastByte(x) as int ==
              One(Odd(x)) + 2 * One(Odd(x1)) + 4 * One(Odd(x2)) + 8 * One(Odd(x3)) + 16 * One(Odd(x4))
              + 32 * One(Odd(x5)) + 64 * One(Odd(x6)) + 128 * One(Odd(Half(x6)))
  {
    hide One, Odd, Half, LastByte, BitOf;
    LowBits(x);
    NextBits(x);
    ByteBits(LastByte(x));
  }

  lemma OneBit(x: bv32, n: nat)
    ensures Number(x, n + 1) == 2 * Number(Half(x), n) + One(Odd(x))
  {
  }

  /** The lowest eight bits are the last digit in base 256. */
  lemma LowestByte(x: bv32, n: nat)
    ensures Number(x, n + 8) == 256 * Number(DropByte(x), n) + LastByte(x) as int
  {
    hide Number, One, Odd, Half, LastByte, DropByte;
    EightHalves(x);
    LastByteBits(x);
    var (x1, x2) := (Half(x), Half(Half(x)));
    var (x3, x4) := (Half(x2), Half(Half(x2)));
    var (x5, x6) := (Half(x4), Half(Half(x4)));
    OneBit(x, n + 7);
    OneBit(x1, n + 6);
    OneBit(x2, n + 5);
    OneBit(x3, n + 4);
    OneBit(x4, n + 3);
    OneBit(x5, n + 2);
    OneBit(x6, n + 1);
    OneBit(Half(x6), n);
  }

  lemma FourBytes(v: bv32)
    ensures BigEndian(v) == [LastByte(DropByte(DropByte(DropByte(v)))), LastByte(DropByte(DropByte(v))),
                             LastByte(DropByte(v)), LastByte(v)]
  {
  }

  /** Its four bytes, the highest first, spell the word in base 256. */
  lemma BigEndianSpells(v: bv32)
    ensures |BigEndian(v)| == 4
    ensures var b := BigEndian(v);
            Number(v, 32) == ((b[0] as int * 256 + b[1] as int) * 256 + b[2] as int) * 256 + b[3] as int
  {
    hide BigEndian, LastByte, DropByte;
    FourBytes(v);
    LowestByte(v, 24);
    LowestByte(DropByte(v), 16);
    LowestByte(DropByte(DropByte(v)), 8);
    LowestByte(DropByte(DropByte(DropByte(v))), 0);
  }

  /** The text of a word decodes to its four bytes, the highest first. */
  lemma TextSpells(v: bv32)
    ensures var o := Base64.Decode(Base64.Encode(BigEndian(v)));
            |o| == 4 && Number(v, 32) == ((o[0] * 256 + o[1]) * 256 + o[2]) * 256 + o[3]
  {
    hide BigEndian, Number, Base64.Decode, Base64.EncodeOctets;
    BigEndianSpells(v);
    Base64.RoundTrip(Base64.Octets(BigEndian(v)));
  }

  // ---------- the reflected register ----------

  const POLY: bv32 := 0x82f6_3b78

  /** One step of the reflected register: the bit shifted out decides whether the polynomial is added. */
  function Shift(c: bv32): bv32 {
    if c & 1 == 1 then POLY ^ (c >> 1) else c >> 1
  }

  function Shifts(c: bv32, n: nat): bv32 {
    Iterate(Shift, c, n)
  }

  function Iterate<T>(f: T -> T, x: T, n: nat): T
    decreases n
  {
    if n == 0 then x else Iterate(f, f(x), n - 1)
  }

  function Xor(a: bv32, b: bv32): bv32 {
    a ^ b
  }

  function LowByte(a: bv32): bv32 {
    a & 0xff
  }

  function DropByte(a: bv32): bv32 {
    a >> 8
  }

  /** The register after a message, each byte added whole before its eight steps. */
  function Register(c: bv32, message: Bytes): bv32 {
    if message == [] then c
    else Shifts(Xor(Register(c, message[..|message| - 1]), message[|message| - 1] as bv32), 8)
  }

  // ---------- linearity of the register ----------

  lemma LowBit(a: bv32)
    ensures a & 1 == 0 || a & 1 == 1
  {
  }

  lemma BothOdd(a: bv32, b: bv32)
    requires a & 1 == 1 && b & 1 == 1
    ensures Shift(a ^ b) == Shift(a) ^ Shift(b)
  {
    assert (a ^ b) & 1 == 0;
    assert (a ^ b) >> 1 == (POLY ^ (a >> 1)) ^ (POLY ^ (b >> 1));
  }

  lemma OneOdd(a: bv32, b: bv32)
    requires a & 1 == 1 && b & 1 == 0
    ensures Shift(a ^ b) == Shift(a) ^ Shift(b)
  {
    assert (a ^ b) & 1 == 1;
    assert POLY ^ ((a ^ b) >> 1) == (POLY ^ (a >> 1)) ^ (b >> 1);
  }

  lemma NoneOdd(a: bv32, b: bv32)
    requires a & 1 == 0 && b & 1 == 0
    ensures Shift(a ^ b) == Shift(a) ^ Shift(b)
  {
    assert (a ^ b) & 1 == 0;
    assert (a ^ b) >> 1 == (a >> 1) ^ (b >> 1);
  }

  lemma XorIs(a: bv32, b: bv32)
    ensures Xor(a, b) == a ^ b && Xor(a, b) == Xor(b, a)
  {
  }

  /** The register's step is linear over exclusive or. */
  lemma ShiftIsLinear(a: bv32, b: bv32)
    ensures Shift(Xor(a, b)) == Xor(Shift(a), Shift(b))
  {
    hide Shift, Xor;
    XorIs(a, b);
    XorIs(Shift(a), Shift(b));
    XorIs(b, a);
    XorIs(Shift(b), Shift(a));
    LowBit(a);
    LowBit(b);
    if a & 1 == 0 && b & 1 == 0 {
      NoneOdd(a, b);
    } else if a & 1 == 1 && b & 1 == 1 {
      BothOdd(a, b);
    } else if a & 1 == 1 {
      OneOdd(a, b);
    } else {
      OneOdd(b, a);
    }
  }

  lemma ShiftIsLinearEverywhere()
    ensures forall x, y :: Shift(Xor(x, y)) == Xor(Shift(x), Shift(y))
  {
    forall x, y ensures Shift(Xor(x, y)) == Xor(Shift(x), Shift(y)) {
      ShiftIsLinear(x, y);
    }
  }

  /** An operation each step carries through, all the steps carry through. */
  lemma {:induction false} IterateDistributes<T(!new)>(f: T -> T, op: (T, T) -> T, a: T, b: T, n: nat)
    requires forall x, y :: f(op(x, y)) == op(f(x), f(y))
    ensures Iterate(f, op(a, b), n) == op(Iterate(f, a, n), Iterate(f, b, n))
    decreases n
  {
    if n > 0 {
      IterateDistributes(f, op, f(a), f(b), n - 1);
    }
  }

  lemma {:induction false} IterateInjective<T(!new)>(f: T -> T, back: T -> T, a: T, b: T, n: nat)
    requires forall x :: back(f(x)) == x
    requires Iterate(f, a, n) == Iterate(f, b, n)
    ensures a == b
    decreases n
  {
    if n > 0 {
      IterateInjective(f, back, f(a), f(b), n - 1);
      assert back(f(a)) == a && back(f(b)) == b;
    }
  }

  lemma {:induction false} IterateComposes<T>(f: T -> T, x: T, m: nat, n: nat)
    ensures Iterate(f, Iterate(f, x, m), n) == Iterate(f, x, m + n)
    decreases m
  {
    if m > 0 {
      IterateComposes(f, f(x), m - 1, n);
    }
  }

  lemma ShiftsAreLinear(a: bv32, b: bv32, n: nat)
    ensures Shifts(Xor(a, b), n) == Xor(Shifts(a, n), Shifts(b, n))
  {
    ShiftIsLinearEverywhere();
    IterateDistributes(Shift, Xor, a, b, n);
  }

  /** The step undone: the polynomial's own top bit says whether it was added. */
  function Unshift(c: bv32): bv32 {
    if c >> 31 == 1 then ((c ^ POLY) << 1) | 1 else c << 1
  }

  lemma UnshiftShift(c: bv32)
    ensures Unshift(Shift(c)) == c
  {
  }

  lemma UnshiftShiftEverywhere()
    ensures forall x :: Unshift(Shift(x)) == x
  {
    forall x ensures Unshift(Shift(x)) == x {
      UnshiftShift(x);
    }
  }

  lemma ShiftsAreInjective(a: bv32, b: bv32, n: nat)
    requires Shifts(a, n) == Shifts(b, n)
    ensures a == b
  {
    UnshiftShiftEverywhere();
    IterateInjective(Shift, Unshift, a, b, n);
  }

  lemma HalfClear(c: bv32)
    requires c & 0xf == 0
    ensures Shift(Shift(Shift(Shift(c)))) == c >> 4
  {
    assert c & 1 == 0 && (c >> 1) & 1 == 0 && (c >> 2) & 1 == 0 && (c >> 3) & 1 == 0;
    assert (c >> 1) >> 1 == c >> 2 && (c >> 2) >> 1 == c >> 3 && (c >> 3) >> 1 == c >> 4;
  }

  lemma FourShifts(c: bv32)
    ensures Shifts(c, 4) == Shift(Shift(Shift(Shift(c))))
  {
  }

  /** A register whose low byte is clear only moves: eight steps take nothing from the polynomial. */
  lemma ClearByteMoves(c: bv32)
    requires c & 0xff == 0
    ensures Shifts(c, 8) == c >> 8
  {
    assert c & 0xf == 0 && (c >> 4) & 0xf == 0 && (c >> 4) >> 4 == c >> 8;
    HalfClear(c);
    HalfClear(c >> 4);
    FourShifts(c);
    FourShifts(c >> 4);
    IterateComposes(Shift, c, 4, 4);
  }

  // ---------- the shift register is the division, its bits reversed ----------

  lemma ReverseMoves(r: bv32)
    ensures Reverse(r << 1) == Reverse(r) >> 1
  {
  }

  lemma ReverseIsLinear(a: bv32, b: bv32)
    ensures Reverse(Xor(a, b)) == Xor(Reverse(a), Reverse(b))
  {
  }

  lemma ReverseEnds(r: bv32)
    ensures Reverse(r) & 1 == r >> 31
    ensures Reverse(CASTAGNOLI) == POLY
  {
  }

  lemma AllOnesReversed()
    ensures Reverse(0xffff_ffff) == 0xffff_ffff
  {
  }

  lemma XorTurns(a: bv32, b: bv32)
    ensures Xor(a, b) == Xor(b, a)
  {
  }

  lemma XorBit(x: bv32, y: bv32, bit: bv32)
    requires y & 1 == x >> 31 && (bit == 0 || bit == 1)
    ensures Xor(y, bit) & 1 == Xor(x >> 31, bit) && Xor(y, bit) >> 1 == y >> 1
    ensures Xor(x >> 31, bit) == 0 || Xor(x >> 31, bit) == 1
  {
  }

  lemma ShiftCases(z: bv32, half: bv32, fallen: bv32)
    requires z & 1 == fallen && z >> 1 == half && (fallen == 0 || fallen == 1)
    ensures Shift(z) == if fallen == 1 then Xor(POLY, half) else half
  {
    if fallen == 1 {
      assert Shift(z) == POLY ^ (z >> 1);
    } else {
      assert Shift(z) == z >> 1;
    }
  }

  /** What a reversal of the register must make of a moved word for a division step to be a shift. */
  lemma StepCases(r: bv32, bit: bv32, y: bv32, moved: bv32, taken: bv32)
    requires bit == 0 || bit == 1
    requires y & 1 == r >> 31 && moved == y >> 1 && taken == Xor(moved, POLY)
    ensures Shift(Xor(y, bit)) == if Xor(r >> 31, bit) == 1 then taken else moved
  {
    hide Xor, Shift;
    XorBit(r, y, bit);
    XorTurns(moved, POLY);
    ShiftCases(Xor(y, bit), moved, Xor(r >> 31, bit));
  }

  lemma ShiftedCases(r: bv32, bit: bv32)
    requires bit == 0 || bit == 1
    ensures Shift(Xor(Reverse(r), bit))
            == if Xor(r >> 31, bit) == 1 then Reverse(Xor(r << 1, CASTAGNOLI)) else Reverse(r << 1)
  {
    hide Reverse, Shift, Xor;
    ReverseTurns(r);
    StepCases(r, bit, Reverse(r), Reverse(r << 1), Reverse(Xor(r << 1, CASTAGNOLI)));
  }

  /** A step of the division, seen in the reversed register, is a step of the shift register fed the bit. */
  lemma ReversedStep(r: bv32, bit: bv32)
    requires bit == 0 || bit == 1
    ensures Reverse(Divide(r, bit)) == Shift(Xor(Reverse(r), bit))
  {
    ShiftedCases(r, bit);
    hide Reverse, Shift;
  }

  lemma ReverseTurns(r: bv32)
    ensures Reverse(Xor(r << 1, CASTAGNOLI)) == Xor(Reverse(r << 1), POLY)
    ensures Reverse(r << 1) == Reverse(r) >> 1 && Reverse(r) & 1 == r >> 31
  {
    hide Reverse, Xor;
    ReverseMoves(r);
    ReverseEnds(r);
    ReverseIsLinear(r << 1, CASTAGNOLI);
  }

  lemma SplitLowBit(bits: bv32)
    ensures (bits & 0xffff_fffe) >> 1 == bits >> 1 && (bits & 0xffff_fffe) & 1 == 0
    ensures bits == (bits & 1) ^ (bits & 0xffff_fffe)
  {
  }

  lemma XorAssociates(a: bv32, b: bv32, c: bv32)
    ensures a ^ (b ^ c) == (a ^ b) ^ c
  {
  }

  lemma ClearBitMoves(bits: bv32)
    requires bits & 1 == 0
    ensures Shift(bits) == bits >> 1
  {
  }

  /** The bits still to come, added early: they only move down while the register steps. */
  lemma BitsMove(c: bv32, bits: bv32)
    ensures Shift(Xor(c, bits)) == Xor(Shift(Xor(c, bits & 1)), bits >> 1)
  {
    hide Shift;
    var rest := bits & 0xffff_fffe;
    SplitLowBit(bits);
    ClearBitMoves(rest);
    XorAssociates(c, bits & 1, rest);
    ShiftIsLinear(c ^ (bits & 1), rest);
  }

  function Drop(bits: bv32, n: nat): bv32
    decreases n
  {
    if n == 0 then bits else Drop(bits >> 1, n - 1)
  }

  lemma ByteDrops(bits: bv32)
    requires bits & 0xff == bits
    ensures Drop(bits, 8) == 0
  {
    assert bits >> 8 == 0;
    assert ((((((((bits >> 1) >> 1) >> 1) >> 1) >> 1) >> 1) >> 1) >> 1) == bits >> 8;
  }

  /** `n` message bits divided in one at a time are `n` steps of the shift register they were added to at once. */
  lemma {:induction false} DivideBitsIsShifts(r: bv32, bits: bv32, n: nat)
    ensures Xor(Reverse(DivideBits(r, bits, n)), Drop(bits, n)) == Shifts(Xor(Reverse(r), bits), n)
    decreases n
  {
    hide Reverse, Divide, Shift, Xor;
    if n > 0 {
      LowBit(bits);
      ReversedStep(r, bits & 1);
      BitsMove(Reverse(r), bits);
      DivideBitsIsShifts(Divide(r, bits & 1), bits >> 1, n - 1);
    }
  }

  lemma XorZero(a: bv32)
    ensures Xor(a, 0) == a
  {
  }

  lemma BitsOfAByte(b: bv8)
    ensures (b as bv32) & 0xff == b as bv32
  {
  }

  lemma DivideByteIsShifts(r: bv32, b: bv8)
    ensures Reverse(DivideBits(r, b as bv32, 8)) == Shifts(Xor(Reverse(r), b as bv32), 8)
  {
    hide Reverse, DivideBits, Shifts, Drop, Xor;
    DivideBitsIsShifts(r, b as bv32, 8);
    BitsOfAByte(b);
    ByteDrops(b as bv32);
    XorZero(Reverse(DivideBits(r, b as bv32, 8)));
  }

  lemma {:induction false} RegisterIsRemainder(r: bv32, message: Bytes)
    ensures Register(Reverse(r), message) == Reverse(Remainder(r, message))
  {
    hide Reverse, DivideBits, Shifts, Xor;
    if message != [] {
      var body := message[..|message| - 1];
      RegisterIsRemainder(r, body);
      DivideByteIsShifts(Remainder(r, body), message[|message| - 1]);
    }
  }

  lemma CrcIsRegister(message: Bytes)
    ensures Crc(message) == Xor(Register(0xffff_ffff, message), 0xffff_ffff)
  {
    hide Reverse, Remainder, Register, Xor;
    AllOnesReversed();
    RegisterIsRemainder(0xffff_ffff, message);
  }

  // ---------- the table ----------

  predicate IsTable(table: seq<bv32>) {
    |table| == 256 && forall n :: 0 <= n < 256 ==> table[n] == Shifts(n as bv32, 8)
  }

  lemma {:induction false} OneMoreShift(c: bv32, k: nat)
    ensures Shifts(c, k + 1) == Shift(Shifts(c, k))
  {
    IterateComposes(Shift, c, k, 1);
    assert Iterate(Shift, Iterate(Shift, c, k), 1) == Iterate(Shift, Shift(Iterate(Shift, c, k)), 0);
  }

  /** The table the module builds once: entry `n` is eight steps of a register holding `n`. */
  method BuildTable() returns (table: array<bv32>)
    ensures fresh(table) && IsTable(table[..])
  {
    hide Shifts;
    table := new bv32[256];
    for n := 0 to 256
      invariant forall m :: 0 <= m < n ==> table[m] == Shifts(m as bv32, 8)
    {
      var c := n as bv32;
      NoShifts(c);
      for k := 0 to 8
        invariant c == Shifts(n as bv32, k)
        invariant forall m :: 0 <= m < n ==> table[m] == Shifts(m as bv32, 8)
      {
        OneMoreShift(n as bv32, k);
        c := if c & 1 == 1 then POLY ^ (c >> 1) else c >> 1;
      }
      table[n] := c;
    }
  }

  lemma NoShifts(c: bv32)
    ensures Shifts(c, 0) == c
  {
  }

  function HighBytes(x: bv32): bv32 {
    x & 0xffff_ff00
  }

  lemma SplitLowByte(c: bv32, b: bv32)
    requires LowByte(b) == b
    ensures Xor(c, b) == Xor(LowByte(Xor(c, b)), HighBytes(c))
  {
    hide Xor, LowByte, HighBytes;
    HighBytesKept(c, b);
    SplitWord(Xor(c, b));
  }

  lemma HighBytesKept(c: bv32, b: bv32)
    requires LowByte(b) == b
    ensures HighBytes(Xor(c, b)) == HighBytes(c)
  {
  }

  lemma SplitWord(x: bv32)
    ensures Xor(LowByte(x), HighBytes(x)) == x
  {
  }

  lemma HighBytesMove(c: bv32)
    ensures Shifts(HighBytes(c), 8) == DropByte(c)
  {
    assert (c & 0xffff_ff00) & 0xff == 0 && (c & 0xffff_ff00) >> 8 == c >> 8;
    ClearByteMoves(c & 0xffff_ff00);
  }

  /** One lookup is eight steps: the low byte's share is in the table, and the rest of the register only moves. */
  lemma LookupIsEightShifts(c: bv32, b: bv32)
    requires LowByte(b) == b
    ensures Xor(Shifts(LowByte(Xor(c, b)), 8), DropByte(c)) == Shifts(Xor(c, b), 8)
  {
    hide Shifts, Xor, LowByte, DropByte, HighBytes;
    SplitLowByte(c, b);
    ShiftsAreLinear(LowByte(Xor(c, b)), HighBytes(c), 8);
    HighBytesMove(c);
  }

  lemma LowByteIndex(x: bv32)
    ensures LowByte(x) <= 0xff && (LowByte(x) as int) as bv32 == LowByte(x)
  {
  }

  /** The table's entry for a low byte, found by its number. */
  function Entry(table: seq<bv32>, x: bv32): (entry: bv32)
    requires IsTable(table)
    ensures entry == Shifts(LowByte(x), 8)
  {
    hide Shifts, LowByte;
    LowByteIndex(x);
    table[LowByte(x) as int]
  }

  lemma ByteFits(b: bv8)
    ensures LowByte(b as bv32) == b as bv32
  {
  }

  /** What the loop does with one byte is what the register does with it. */
  lemma RegisterTakesAByte(c: bv32, bytes: Bytes, i: nat)
    requires i < |bytes|
    ensures var crc := Register(c, bytes[..i]);
            Xor(Shifts(LowByte(Xor(crc, bytes[i] as bv32)), 8), DropByte(crc)) == Register(c, bytes[..i + 1])
  {
    hide Shifts, Xor, LowByte, DropByte;
    assert bytes[..i + 1][..i] == bytes[..i];
    ByteFits(bytes[i]);
    LookupIsEightShifts(Register(c, bytes[..i]), bytes[i] as bv32);
  }

  /** The string stored beside an object: the checksum the division defines, whatever the bytes. */
  method Crc32cBase64(table: array<bv32>, bytes: Bytes) returns (text: string)
    requires IsTable(table[..])
    ensures text == Base64.Encode(BigEndian(Crc(bytes)))
    ensures var o := Base64.Decode(text);
            |o| == 4 && Number(Crc(bytes), 32) == ((o[0] * 256 + o[1]) * 256 + o[2]) * 256 + o[3]
  {
    hide Shifts, Xor, LowByte, DropByte, Crc, Register, Entry, IsTable, Base64.Encode, Base64.Decode, BigEndian, Number;
    var crc: bv32 := 0xffff_ffff;
    EmptyRegister(crc, bytes);
    for i := 0 to |bytes|
      invariant crc == Register(0xffff_ffff, bytes[..i])
    {
      RegisterTakesAByte(0xffff_ffff, bytes, i);
      crc := Xor(Entry(table[..], Xor(crc, bytes[i] as bv32)), DropByte(crc));
    }
    assert bytes[..|bytes|] == bytes;
    CrcIsRegister(bytes);
    text := Base64.Encode(BigEndian(Xor(crc, 0xffff_ffff)));
    TextSpells(Crc(bytes));
  }

  lemma EmptyRegister(c: bv32, bytes: Bytes)
    ensures Register(c, bytes[..0]) == c
  {
  }

  // ---------- what the checksum detects ----------

  lemma {:induction false} RegisterComposes(c: bv32, a: Bytes, b: Bytes)
    ensures Register(c, a + b) == Register(Register(c, a), b)
  {
    hide Shifts, Xor;
    if b == [] {
      assert a + b == a;
    } else {
      assert (a + b)[..|a + b| - 1] == a + b[..|b| - 1];
      RegisterComposes(c, a, b[..|b| - 1]);
    }
  }

  lemma XorCancels(a: bv32, b: bv32, k: bv32)
    requires Xor(a, k) == Xor(b, k) || Xor(k, a) == Xor(k, b)
    ensures a == b
  {
  }

  /** No message brings two registers together. */
  lemma {:induction false} RegisterIsInjective(c: bv32, d: bv32, message: Bytes)
    requires Register(c, message) == Register(d, message)
    ensures c == d
  {
    hide Shifts, Xor;
    if message != [] {
      var (body, b) := (message[..|message| - 1], message[|message| - 1] as bv32);
      ShiftsAreInjective(Xor(Register(c, body), b), Xor(Register(d, body), b), 8);
      XorCancels(Register(c, body), Register(d, body), b);
      RegisterIsInjective(c, d, body);
    }
  }

  /** Up to four bytes as one word, the first lowest. */
  function Pack(x: Bytes): bv32 {
    if x == [] then 0 else Xor(x[0] as bv32, Raise(Pack(x[1..])))
  }

  function Raise(v: bv32): bv32 {
    v << 8
  }

  /** The word uses no more than its lowest `n` bytes. */
  predicate Fits(v: bv32, n: nat) {
    && (n == 0 ==> v == 0)
    && (n == 1 ==> v & 0xffff_ff00 == 0)
    && (n == 2 ==> v & 0xffff_0000 == 0)
    && (n == 3 ==> v & 0xff00_0000 == 0)
  }

  lemma FitsOneMore(b: bv8, v: bv32, n: nat)
    requires Fits(v, n) && n <= 3
    ensures Fits(Xor(b as bv32, Raise(v)), n + 1)
  {
    if n == 0 {
      FitsByte(b);
    } else if n == 1 {
      FitsPair(b, v);
    } else if n == 2 {
      FitsTriple(b, v);
    }
  }

  lemma FitsByte(b: bv8)
    ensures ((b as bv32) ^ ((0 as bv32) << 8)) & 0xffff_ff00 == 0
  {
  }

  lemma FitsPair(b: bv8, v: bv32)
    requires v & 0xffff_ff00 == 0
    ensures ((b as bv32) ^ (v << 8)) & 0xffff_0000 == 0
  {
  }

  lemma FitsTriple(b: bv8, v: bv32)
    requires v & 0xffff_0000 == 0
    ensures ((b as bv32) ^ (v << 8)) & 0xff00_0000 == 0
  {
  }

  lemma {:induction false} PackFits(x: Bytes)
    requires |x| <= 3
    ensures Fits(Pack(x), |x|)
  {
    hide Xor, Raise, Fits;
    if x == [] {
      FitsZero();
    } else {
      PackFits(x[1..]);
      FitsOneMore(x[0], Pack(x[1..]), |x| - 1);
    }
  }

  lemma FitsZero()
    ensures Fits(0, 0)
  {
  }

  lemma RaisedMovesBack(v: bv32, n: nat)
    requires Fits(v, n) && n <= 3
    ensures Shifts(Raise(v), 8) == v
  {
    RaisedWord(v, n);
    ClearByteMoves(v << 8);
  }

  lemma RaisedWord(v: bv32, n: nat)
    requires Fits(v, n) && n <= 3
    ensures (v << 8) & 0xff == 0 && (v << 8) >> 8 == v
  {
    if n == 0 {
      assert v & 0xff00_0000 == 0;
    } else if n == 1 {
      assert v & 0xff00_0000 == 0;
    } else if n == 2 {
      assert v & 0xff00_0000 == 0;
    }
    TopClear(v);
  }

  lemma TopClear(v: bv32)
    requires v & 0xff00_0000 == 0
    ensures (v << 8) & 0xff == 0 && (v << 8) >> 8 == v
  {
  }

  lemma XorGroups(a: bv32, b: bv32, c: bv32)
    ensures Xor(Xor(a, b), c) == Xor(a, Xor(b, c))
  {
  }

  lemma NoBytes(c: bv32)
    ensures Register(c, []) == Shifts(Xor(c, Pack([])), 0)
  {
  }

  lemma OneByte(c: bv32, x: Bytes)
    requires x != []
    ensures Register(c, x[..1]) == Shifts(Xor(c, x[0] as bv32), 8)
  {
    hide Shifts, Xor;
    assert x[..1][..0] == [];
  }

  /** Up to four bytes taken one by one are the word they pack into, taken at once. */
  lemma {:induction false} RegisterOfPacked(c: bv32, x: Bytes)
    requires |x| <= 4
    ensures Register(c, x) == Shifts(Xor(c, Pack(x)), 8 * |x|)
    decreases |x|
  {
    hide Xor, Raise, Fits, Register, Shifts;
    if x == [] {
      NoBytes(c);
    } else {
      var (b, rest) := (x[0] as bv32, x[1..]);
      var raised := Raise(Pack(rest));
      assert x == x[..1] + rest;
      RegisterComposes(c, x[..1], rest);
      OneByte(c, x);
      RegisterOfPacked(Shifts(Xor(c, b), 8), rest);
      PackFits(rest);
      RaisedMovesBack(Pack(rest), |rest|);
      ShiftsAreLinear(Xor(c, b), raised, 8);
      XorGroups(c, b, raised);
      ShiftsCompose(Xor(c, Pack(x)), 8, 8 * |rest|);
    }
  }

  lemma ShiftsCompose(c: bv32, m: nat, n: nat)
    ensures Shifts(Shifts(c, m), n) == Shifts(c, m + n)
  {
    IterateComposes(Shift, c, m, n);
  }

  lemma PackEnds(b: bv8, v: bv32, n: nat)
    requires Fits(v, n) && n <= 3
    ensures LowByte(Xor(b as bv32, Raise(v))) == b as bv32
    ensures DropByte(Xor(b as bv32, Raise(v))) == v
  {
    RaisedWord(v, n);
    JoinedWord(b, v << 8);
  }

  lemma JoinedWord(b: bv8, high: bv32)
    requires high & 0xff == 0
    ensures ((b as bv32) ^ high) & 0xff == b as bv32 && ((b as bv32) ^ high) >> 8 == high >> 8
  {
  }

  lemma SameWordSameByte(a: bv8, b: bv8)
    requires a as bv32 == b as bv32
    ensures a == b
  {
  }

  lemma PackSplits(x: Bytes)
    requires 0 < |x| <= 4
    ensures LowByte(Pack(x)) == x[0] as bv32 && DropByte(Pack(x)) == Pack(x[1..])
  {
    hide Xor, Raise, Fits, LowByte, DropByte;
    PackFits(x[1..]);
    PackEnds(x[0], Pack(x[1..]), |x| - 1);
  }

  lemma {:induction false} PackIsInjective(x: Bytes, y: Bytes)
    requires |x| == |y| <= 4 && Pack(x) == Pack(y)
    ensures x == y
  {
    hide Pack, LowByte, DropByte;
    if x != [] {
      PackSplits(x);
      PackSplits(y);
      SameWordSameByte(x[0], y[0]);
      PackIsInjective(x[1..], y[1..]);
    }
  }

  lemma BigEndianIsInjective(v: bv32, w: bv32)
    requires BigEndian(v) == BigEndian(w)
    ensures v == w
  {
    var (a, b) := (BigEndian(v), BigEndian(w));
    assert a[0] == b[0] && a[1] == b[1] && a[2] == b[2] && a[3] == b[3];
    BytesOfWord(v, w);
  }

  lemma BytesOfWord(v: bv32, w: bv32)
    requires ((v >> 24) & 0xff) as bv8 == ((w >> 24) & 0xff) as bv8
    requires ((v >> 16) & 0xff) as bv8 == ((w >> 16) & 0xff) as bv8
    requires ((v >> 8) & 0xff) as bv8 == ((w >> 8) & 0xff) as bv8
    requires (v & 0xff) as bv8 == (w & 0xff) as bv8
    ensures v == w
  {
  }

  /** The text stored for a body. */
  function Checksum(body: Bytes): string {
    Base64.Encode(BigEndian(Crc(body)))
  }

  /**
   * A burst confined to four consecutive bytes is always seen: two bodies that differ only there have different
   * checksums, wherever it falls and however long they are.
   */
  lemma BurstIsDetected(before: Bytes, x: Bytes, y: Bytes, after: Bytes)
    requires |x| == |y| <= 4 && x != y
    ensures Checksum(before + x + after) != Checksum(before + y + after)
  {
    hide Crc, Register, Shifts, Xor, BigEndian, Base64.Encode, Pack;
    if Checksum(before + x + after) == Checksum(before + y + after) {
      var (p, q) := (before + x + after, before + y + after);
      Base64.Injective(BigEndian(Crc(p)), BigEndian(Crc(q)));
      BigEndianIsInjective(Crc(p), Crc(q));
      CrcIsRegister(p);
      CrcIsRegister(q);
      XorCancels(Register(0xffff_ffff, p), Register(0xffff_ffff, q), 0xffff_ffff);
      SameRegisterSameBurst(0xffff_ffff, before, x, y, after);
      assert false;
    }
  }

  lemma SameRegisterSameBurst(c: bv32, before: Bytes, x: Bytes, y: Bytes, after: Bytes)
    requires |x| == |y| <= 4
    requires Register(c, before + x + after) == Register(c, before + y + after)
    ensures x == y
  {
    hide Register, Shifts, Xor, Pack;
    RegisterComposes(c, before + x, after);
    RegisterComposes(c, before + y, after);
    RegisterIsInjective(Register(c, before + x), Register(c, before + y), after);
    RegisterComposes(c, before, x);
    RegisterComposes(c, before, y);
    var d := Register(c, before);
    RegisterOfPacked(d, x);
    RegisterOfPacked(d, y);
    ShiftsAreInjective(Xor(d, Pack(x)), Xor(d, Pack(y)), 8 * |x|);
    XorCancels(Pack(x), Pack(y), d);
    PackIsInjective(x, y);
  }
}
