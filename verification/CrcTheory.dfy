/**
 What `memcrc` means: the complement of the remainder, over GF(2), of the message the POSIX.1-2017
 `cksum` utility describes (the file followed by its length, least significant octet first)
 divided by the generator 0x104c11db7.
 */
module CrcTheory {
  import opened Bytes
  import opened CrcTable
  import opened Crc
  import opened Gf2

  // ---- machine words as bits, highest first ----------------------------------------------

  function Shamt(i: nat): bv32
    requires i < 32
  {
    31 - ((i as bv5) as bv32)
  }

  lemma IndexNext(i: nat)
    requires i < 31
    ensures i as bv5 < 31 && (i + 1) as bv5 == (i as bv5) + 1
  {
  }

  lemma IndexDown(b: bv5)
    requires b < 31
    ensures 31 - (b as bv32) == 31 - ((b + 1) as bv32) + 1 && 1 <= 31 - (b as bv32) <= 31
  {
  }

  lemma ShamtNext(i: nat)
    requires i < 31
    ensures Shamt(i) == Shamt(i + 1) + 1 && 1 <= Shamt(i) <= 31
  {
    IndexNext(i);
    IndexDown(i as bv5);
  }

  function Bit(w: bv32, k: bv32): bool {
    k < 32 && (w >> k) & 1 == 1
  }

  function BitsOf(w: bv32): (b: Word)
    ensures forall i :: 0 <= i < 32 ==> b[i] == Bit(w, Shamt(i))
  {
    seq(32, i requires 0 <= i < 32 => Bit(w, Shamt(i)))
  }

  lemma BitXor(a: bv32, b: bv32, k: bv32)
    ensures Bit(a ^ b, k) == (Bit(a, k) != Bit(b, k))
  {
  }

  lemma BitsXor(a: bv32, b: bv32)
    ensures BitsOf(a ^ b) == Xor(BitsOf(a), BitsOf(b))
  {
    forall i | 0 <= i < 32 ensures BitsOf(a ^ b)[i] == Xor(BitsOf(a), BitsOf(b))[i] {
      BitXor(a, b, Shamt(i));
    }
  }

  lemma BitShl(a: bv32, k: bv32)
    requires k < 31
    ensures Bit(a << 1, k + 1) == Bit(a, k) && !Bit(a << 1, 0)
  {
  }

  lemma BitsShl(a: bv32)
    ensures BitsOf(a << 1) == BitsOf(a)[1..] + [false]
  {
    forall i | 0 <= i < 32 ensures BitsOf(a << 1)[i] == (BitsOf(a)[1..] + [false])[i] {
      if i < 31 {
        ShamtNext(i);
        BitShl(a, Shamt(i + 1));
      } else {
        BitShl(a, 0);
      }
    }
  }

  lemma BitTop(a: bv32)
    ensures BitsOf(a)[0] == (a & 0x8000_0000 != 0)
  {
  }

  /** The generator's coefficients below x^32. */
  const LOW: Word := BitsOf(0x04c1_1db7)

  lemma ShiftBitIsStep(s: bv32)
    ensures BitsOf(ShiftBit(s)) == Step(LOW, BitsOf(s))
  {
    BitTop(s);
    BitsShl(s);
    BitsXor(s << 1, 0x04c1_1db7);
  }

  lemma StepsNext(s: bv32, n: nat)
    requires n > 0
    ensures Steps(LOW, BitsOf(s), n) == Steps(LOW, BitsOf(ShiftBit(s)), n - 1)
  {
    hide BitsOf, ShiftBit, Step;
    ShiftBitIsStep(s);
  }

  lemma ShiftByteIsSteps(s: bv32)
    ensures BitsOf(ShiftByte(s)) == Steps(LOW, BitsOf(s), 8)
  {
    hide BitsOf, ShiftBit, Step;
    var s1 := ShiftBit(s);
    var s2 := ShiftBit(s1);
    var s3 := ShiftBit(s2);
    var s4 := ShiftBit(s3);
    var s5 := ShiftBit(s4);
    var s6 := ShiftBit(s5);
    var s7 := ShiftBit(s6);
    StepsNext(s, 8);
    StepsNext(s1, 7);
    StepsNext(s2, 6);
    StepsNext(s3, 5);
    StepsNext(s4, 4);
    StepsNext(s5, 3);
    StepsNext(s6, 2);
    StepsNext(s7, 1);
  }

  // ---- one table look-up is eight steps of the register -----------------------------------

  function ByteBits(b: byte): (r: Bits)
    ensures |r| == 8
  {
    BitsOf((b as bv32) << 24)[..8]
  }

  lemma LowBitsClear(b: byte, k: bv32)
    requires k < 24
    ensures !Bit((b as bv32) << 24, k)
  {
  }

  lemma ByteAligned(b: byte)
    ensures BitsOf((b as bv32) << 24) == Align(ByteBits(b))
  {
    var w := (b as bv32) << 24;
    forall i | 8 <= i < 32 ensures !BitsOf(w)[i] {
      assert Shamt(i) < 24;
      LowBitsClear(b, Shamt(i));
    }
  }

  lemma ShiftLow(s: bv32)
    requires s & 0xff00_0000 == 0
    ensures ShiftByte(s) == s << 8
  {
  }

  lemma PlusBits(a: bv32, b: bv32)
    ensures BitsOf(Plus(a, b)) == Xor(BitsOf(a), BitsOf(b))
  {
    BitsXor(a, b);
  }

  lemma LookUpSplit(s: bv32, i: byte) returns (entry: bv32)
    ensures LookUp(s, i) == Plus(s << 8, entry)
    ensures entry == ShiftByte((i as bv32) << 24)
  {
    hide ShiftByte, Plus;
    TableEntry(i);
    entry := CRCTAB[i as int];
  }

  lemma SplitRegister(s: bv32, ch: byte, i: byte)
    requires i == ((s >> 24) as byte) ^ ch
    ensures Plus((i as bv32) << 24, s & 0x00ff_ffff) == Plus(s, (ch as bv32) << 24)
    ensures (s & 0x00ff_ffff) & 0xff00_0000 == 0 && (s & 0x00ff_ffff) << 8 == s << 8
  {
  }

  /** The index byte and the rest of the register go through the eight steps separately. */
  lemma ByteStepSplit(s: bv32, ch: byte) returns (top: bv32, rest: bv32)
    ensures ByteStep(s, ch) == Plus(ShiftByte(rest), ShiftByte(top))
    ensures Plus(top, rest) == Plus(s, (ch as bv32) << 24)
  {
    hide LookUp, Plus, ShiftByte;
    var i := ((s >> 24) as byte) ^ ch;
    var entry := LookUpSplit(s, i);
    SplitRegister(s, ch, i);
    top, rest := (i as bv32) << 24, s & 0x00ff_ffff;
    ShiftLow(rest);
  }

  lemma {:induction false} StepsLinear(s: Word, t: Word, n: nat)
    ensures Steps(LOW, Xor(s, t), n) == Xor(Steps(LOW, s, n), Steps(LOW, t, n))
    decreases n
  {
    hide Xor, Step, BitsOf;
    if n > 0 {
      StepLinear(LOW, s, t);
      StepsLinear(Step(LOW, s), Step(LOW, t), n - 1);
    }
  }

  lemma XorCommutes(a: Word, b: Word)
    ensures Xor(a, b) == Xor(b, a)
  {
  }

  /** One look-up in the table feeds the register the eight bits of the byte. */
  lemma ByteStepIsFeed(s: bv32, ch: byte)
    ensures BitsOf(ByteStep(s, ch)) == Feed(LOW, BitsOf(s), ByteBits(ch))
  {
    hide *;
    var top, rest := ByteStepSplit(s, ch);
    PlusBits(ShiftByte(rest), ShiftByte(top));
    ShiftByteIsSteps(rest);
    ShiftByteIsSteps(top);
    StepsLinear(BitsOf(rest), BitsOf(top), 8);
    XorCommutes(BitsOf(rest), BitsOf(top));
    PlusBits(top, rest);
    PlusBits(s, (ch as bv32) << 24);
    ByteAligned(ch);
    FeedAligned(LOW, BitsOf(s), ByteBits(ch));
  }

  function MessageBits(data: Bytes): (m: Bits)
    ensures |m| == 8 * |data|
  {
    if data == [] then [] else ByteBits(data[0]) + MessageBits(data[1..])
  }

  lemma {:induction false} AbsorbIsFeed(s: bv32, data: Bytes)
    ensures BitsOf(Absorb(s, data)) == Feed(LOW, BitsOf(s), MessageBits(data))
    decreases data
  {
    hide BitsOf, ByteStep, ByteBits, Step;
    if data != [] {
      ByteStepIsFeed(s, data[0]);
      FeedAppend(LOW, BitsOf(s), ByteBits(data[0]), MessageBits(data[1..]));
      AbsorbIsFeed(ByteStep(s, data[0]), data[1..]);
    }
  }

  // ---- the main result ----------------------------------------------------------------------

  /** The message the standard divides: the file, then its length in octets. */
  function CksumMessage(data: Bytes): Bits {
    MessageBits(data + LengthOctets(|data|))
  }

  lemma BitsOfZero()
    ensures BitsOf(0) == Zeros(32)
  {
  }

  lemma BitsOfNot(w: bv32)
    ensures BitsOf(!w) == Complement(BitsOf(w))
  {
    forall i | 0 <= i < 32 ensures BitsOf(!w)[i] == !BitsOf(w)[i] {
      BitNot(w, Shamt(i));
    }
  }

  lemma BitNot(w: bv32, k: bv32)
    requires k < 32
    ensures Bit(!w, k) == !Bit(w, k)
  {
  }

  function Complement(w: Word): (r: Word)
    ensures forall i :: 0 <= i < 32 ==> r[i] == !w[i]
  {
    seq(32, i requires 0 <= i < 32 => !w[i])
  }

  /** Of all 32-bit words, `memcrc` returns the complement of the one that is the remainder. */
  lemma MemcrcIsRemainder(data: Bytes, r: Word)
    ensures r == Complement(BitsOf(Memcrc(data))) <==> IsRemainder(LOW, CksumMessage(data), r)
  {
    hide Absorb, LengthOctets, MessageBits, BitsOf, Feed, IsRemainder, Complement, Zeros;
    var w := Absorb(0, data + LengthOctets(|data|));
    AbsorbIsFeed(0, data + LengthOctets(|data|));
    BitsOfZero();
    BitsOfNot(w);
    ComplementTwice(BitsOf(w));
    RemainderUnique(LOW, CksumMessage(data), r);
  }

  lemma ComplementTwice(w: Word)
    ensures Complement(Complement(w)) == w
  {
  }
}
