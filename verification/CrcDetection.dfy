/** What the checksum can and cannot tell apart. */
module CrcDetection {
  import opened Bytes
  import opened Crc
  import opened CrcTheory
  import opened Gf2

  // ---- different bytes have different bits ------------------------------------------------

  lemma DifferingBit(a: bv32, b: bv32) returns (k: bv32)
    requires a != b
    ensures k < 32 && Bit(a, k) != Bit(b, k)
  {
    var d := a ^ b;
    k := if d & 0xffff_0000 != 0 then 16 else 0;
    k := k + if (d >> k) & 0xff00 != 0 then 8 else 0;
    k := k + if (d >> k) & 0xf0 != 0 then 4 else 0;
    k := k + if (d >> k) & 0xc != 0 then 2 else 0;
    k := k + if (d >> k) & 2 != 0 then 1 else 0;
  }

  lemma ShamtInverse(k: bv32)
    requires k < 32
    ensures (31 - k) as int < 32 && Shamt((31 - k) as int) == k
  {
  }

  lemma BitsInjective(a: bv32, b: bv32)
    ensures BitsOf(a) == BitsOf(b) ==> a == b
  {
    if a != b {
      var k := DifferingBit(a, b);
      ShamtInverse(k);
      assert BitsOf(a)[(31 - k) as int] != BitsOf(b)[(31 - k) as int];
    }
  }

  lemma ByteBitsInjective(a: byte, b: byte)
    requires ByteBits(a) == ByteBits(b)
    ensures a == b
  {
    hide BitsOf, ByteBits;
    ByteAligned(a);
    ByteAligned(b);
    BitsInjective((a as bv32) << 24, (b as bv32) << 24);
    TopByte(a);
    TopByte(b);
  }

  lemma TopByte(a: byte)
    ensures ((((a as bv32) << 24) >> 24) & 0xff) as byte == a
  {
  }

  lemma {:induction false} MessageBitsInjective(a: Bytes, b: Bytes)
    requires |a| == |b|
    ensures MessageBits(a) == MessageBits(b) ==> a == b
  {
    hide ByteBits;
    if a != [] && MessageBits(a) == MessageBits(b) {
      assert ByteBits(a[0]) == MessageBits(a)[..8] == MessageBits(b)[..8] == ByteBits(b[0]);
      ByteBitsInjective(a[0], b[0]);
      assert MessageBits(a[1..]) == MessageBits(a)[8..] == MessageBits(b)[8..] == MessageBits(b[1..]);
      MessageBitsInjective(a[1..], b[1..]);
    }
  }

  lemma {:induction false} MessageBitsAppend(a: Bytes, b: Bytes)
    ensures MessageBits(a + b) == MessageBits(a) + MessageBits(b)
  {
    hide ByteBits;
    if a == [] {
      assert a + b == b;
    } else {
      assert (a + b)[1..] == a[1..] + b;
      MessageBitsAppend(a[1..], b);
    }
  }

  lemma ConstantTerm()
    ensures LOW[31]
  {
  }

  // ---- bursts ------------------------------------------------------------------------------

  /** The two files have the same length and differ only within 32 consecutive bits. */
  ghost predicate DifferByBurst(a: Bytes, b: Bytes, p: nat) {
    |a| == |b| && WithinWindow(Xor(MessageBits(a), MessageBits(b)), p)
  }

  /** The register after the whole message, before the final complement. */
  lemma RegisterBits(data: Bytes)
    ensures BitsOf(!Memcrc(data)) ==
            Feed(LOW, Feed(LOW, Zeros(32), MessageBits(data)), MessageBits(LengthOctets(|data|)))
  {
    hide *;
    var n := LengthOctets(|data|);
    AbsorbIsFeed(0, data + n);
    BitsOfZero();
    MessageBitsAppend(data, n);
    FeedAppend(LOW, Zeros(32), MessageBits(data), MessageBits(n));
    NotMemcrc(data);
  }

  lemma NotMemcrc(data: Bytes)
    ensures !Memcrc(data) == Absorb(0, data + LengthOctets(|data|))
  {
    NotNot(Absorb(0, data + LengthOctets(|data|)));
  }

  lemma NotNot(w: bv32)
    ensures !!w == w
  {
  }

  lemma XorZeroIff(a: Word, b: Word)
    ensures Xor(a, b) == Zeros(32) <==> a == b
  {
    if Xor(a, b) == Zeros(32) {
      forall i | 0 <= i < 32 ensures a[i] == b[i] {
        assert !Xor(a, b)[i];
      }
    }
  }

  lemma XorSelf(m: Bits)
    ensures Xor(m, m) == Zeros(|m|)
  {
  }

  /** After the bytes of two equally long files, the same length octets cannot hide a difference. */
  lemma SameTail(s: Word, t: Word, tail: Bits)
    ensures Feed(LOW, s, tail) == Feed(LOW, t, tail) <==> s == t
  {
    hide *;
    ConstantTerm();
    FeedLinear(LOW, s, tail, t, tail);
    XorSelf(tail);
    FeedZeros(LOW, Xor(s, t), |tail|);
    StepsNonzero(LOW, Xor(s, t), |tail|);
    XorZeroIff(s, t);
    XorZeroIff(Feed(LOW, s, tail), Feed(LOW, t, tail));
  }

  /** Every burst of up to 32 bits changes the checksum. */
  lemma BurstDetected(a: Bytes, b: Bytes, p: nat)
    requires DifferByBurst(a, b, p)
    ensures Memcrc(a) == Memcrc(b) <==> a == b
  {
    hide MessageBits, Feed, Memcrc, LengthOctets, BitsOf;
    if a != b && Memcrc(a) == Memcrc(b) {
      RegisterBits(a);
      RegisterBits(b);
      var ma, mb := MessageBits(a), MessageBits(b);
      SameTail(Feed(LOW, Zeros(32), ma), Feed(LOW, Zeros(32), mb), MessageBits(LengthOctets(|a|)));
      MessageBitsInjective(a, b);
      var i :| 0 <= i < |ma| && ma[i] != mb[i];
      assert Xor(ma, mb)[i];
      ConstantTerm();
      BurstNonzero(LOW, Xor(ma, mb), p);
      FeedLinear(LOW, Zeros(32), ma, Zeros(32), mb);
      XorSelf(Zeros(32));
      XorZeroIff(Feed(LOW, Zeros(32), ma), Feed(LOW, Zeros(32), mb));
      assert false;
    }
  }

  // ---- files of zeros ------------------------------------------------------------------------

  lemma ZeroByteBits()
    ensures ByteBits(0) == Zeros(8)
  {
    BitsOfZero();
  }

  lemma {:induction false} ZeroMessage(n: nat)
    ensures MessageBits(Repeat(0, n)) == Zeros(8 * n)
  {
    hide ByteBits;
    if n > 0 {
      ZeroByteBits();
      assert Repeat(0, n)[1..] == Repeat(0, n - 1);
      ZeroMessage(n - 1);
    }
  }

  lemma LeadingZeros(d: nat, s: Bytes)
    ensures Feed(LOW, Zeros(32), MessageBits(Repeat(0, d) + s)) == Feed(LOW, Zeros(32), MessageBits(s))
  {
    hide *;
    MessageBitsAppend(Repeat(0, d), s);
    ZeroMessage(d);
    FeedAppend(LOW, Zeros(32), Zeros(8 * d), MessageBits(s));
    FeedZeros(LOW, Zeros(32), 8 * d);
    ConstantTerm();
    StepsNonzero(LOW, Zeros(32), 8 * d);
  }

  /** From a zero register, four bytes can be read back from the register they leave. */
  lemma FourBytes(a: Bytes, b: Bytes)
    requires |a| == |b| == 4
    ensures Feed(LOW, Zeros(32), MessageBits(a)) == Feed(LOW, Zeros(32), MessageBits(b)) <==> a == b
  {
    hide *;
    var ma, mb := MessageBits(a), MessageBits(b);
    MessageBitsInjective(a, b);
    FeedLinear(LOW, Zeros(32), ma, Zeros(32), mb);
    XorSelf(Zeros(32));
    XorZeroIff(Feed(LOW, Zeros(32), ma), Feed(LOW, Zeros(32), mb));
    XorZeroIff(ma, mb);
    ConstantTerm();
    if ma != mb {
      var i :| 0 <= i < 32 && ma[i] != mb[i];
      assert Xor(ma, mb)[i];
      ShortNonzero(LOW, Xor(ma, mb));
    }
  }

  lemma {:induction false} LengthOctetsBound(n: nat, k: nat)
    requires n < Pow256(k)
    ensures |LengthOctets(n)| <= k
    ensures FromLE(LengthOctets(n)) == n
    decreases k
  {
    if n > 0 {
      assert LengthOctets(n)[1..] == LengthOctets(n / 256);
      LengthOctetsBound(n / 256, k - 1);
    }
  }

  lemma OctetsOfMultiple(m: nat)
    requires m > 0
    ensures LengthOctets(256 * m) == [0] + LengthOctets(m)
  {
    hide ByteOf;
    assert 256 * m % 256 == 0 && 256 * m / 256 == m;
    ByteOfNat(0);
  }

  lemma {:induction false} ShiftedOctets(n: nat, d: nat)
    requires n > 0
    ensures LengthOctets(n * Pow256(d)) == Repeat(0, d) + LengthOctets(n)
    decreases d
  {
    hide LengthOctets;
    if d == 0 {
      assert n * Pow256(0) == n;
    } else {
      var m := n * Pow256(d - 1);
      assert n * Pow256(d) == 256 * m;
      ShiftedOctets(n, d - 1);
      OctetsOfMultiple(m);
      assert Repeat(0, d) == [0] + Repeat(0, d - 1);
    }
  }

  lemma {:induction false} FromLEShifted(d: nat, s: Bytes)
    ensures FromLE(Repeat(0, d) + s) == FromLE(s) * Pow256(d)
  {
    if d == 0 {
      assert Repeat(0, 0) + s == s;
    } else {
      assert (Repeat(0, d) + s)[1..] == Repeat(0, d - 1) + s;
      FromLEShifted(d - 1, s);
    }
  }

  /** `n` is `m` times a power of 256. */
  ghost predicate Shifted(n: nat, m: nat) {
    exists d: nat :: n == m * Pow256(d)
  }

  /** The register after `n` zero bytes is that of the length alone, padded to four octets. */
  function Padded(n: nat): (s: Bytes)
    requires |LengthOctets(n)| <= 4
    ensures |s| == 4
  {
    Repeat(0, 4 - |LengthOctets(n)|) + LengthOctets(n)
  }

  lemma ZeroFileRegister(n: nat)
    requires |LengthOctets(n)| <= 4
    ensures BitsOf(!Memcrc(Repeat(0, n))) == Feed(LOW, Zeros(32), MessageBits(Padded(n)))
  {
    hide MessageBits, Feed, Memcrc, LengthOctets, BitsOf, Repeat;
    RegisterBits(Repeat(0, n));
    LeadingZeros(n, []);
    assert Repeat(0, n) + [] == Repeat(0, n);
    LeadingZeros(4 - |LengthOctets(n)|, LengthOctets(n));
    EmptyMessage();
  }

  lemma EmptyMessage()
    ensures Feed(LOW, Zeros(32), MessageBits([])) == Zeros(32)
  {
  }

  lemma PaddedGivesShift(n: nat, m: nat)
    requires 0 < n < UINT32_LIMIT && 0 < m < UINT32_LIMIT
    requires |LengthOctets(n)| <= |LengthOctets(m)| <= 4
    requires Padded(n) == Padded(m)
    ensures Shifted(m, n)
  {
    hide LengthOctets, Repeat, FromLE;
    Limits();
    LengthOctetsBound(n, 4);
    LengthOctetsBound(m, 4);
    var d := |LengthOctets(m)| - |LengthOctets(n)|;
    assert LengthOctets(m) == Padded(m)[4 - |LengthOctets(m)|..];
    assert LengthOctets(m) == Repeat(0, d) + LengthOctets(n);
    FromLEShifted(d, LengthOctets(n));
  }

  lemma ShiftGivesPadded(n: nat, m: nat)
    requires 0 < n && |LengthOctets(n)| <= |LengthOctets(m)| <= 4
    requires Shifted(m, n)
    ensures Padded(n) == Padded(m)
  {
    hide LengthOctets, Repeat;
    var e: nat :| m == n * Pow256(e);
    ShiftedOctets(n, e);
    assert Repeat(0, 4 - |LengthOctets(m)|) + Repeat(0, e) == Repeat(0, 4 - |LengthOctets(n)|);
  }

  lemma PaddedEqual(n: nat, m: nat)
    requires 0 < n < UINT32_LIMIT && 0 < m < UINT32_LIMIT
    requires |LengthOctets(n)| <= |LengthOctets(m)| <= 4
    ensures Padded(n) == Padded(m) <==> Shifted(m, n)
  {
    if Padded(n) == Padded(m) {
      PaddedGivesShift(n, m);
    }
    if Shifted(m, n) {
      ShiftGivesPadded(n, m);
    }
  }

  lemma ShorterOctets(n: nat, m: nat)
    requires 0 < n && 0 < m && |LengthOctets(n)| <= |LengthOctets(m)|
    ensures Shifted(n, m) ==> n == m
    ensures n == m ==> Shifted(n, m)
  {
    if n == m {
      assert n == m * Pow256(0);
    }
    if Shifted(n, m) {
      var d: nat :| n == m * Pow256(d);
      ShiftedOctets(m, d);
      assert d == 0;
    }
  }

  /** Only the length octets tell two files of zeros apart, and their leading zeros are lost. */
  lemma ZeroFiles(n: nat, m: nat)
    requires 0 < n < UINT32_LIMIT && 0 < m < UINT32_LIMIT
    ensures Memcrc(Repeat(0, n)) == Memcrc(Repeat(0, m)) <==> Shifted(n, m) || Shifted(m, n)
  {
    hide Memcrc, LengthOctets, BitsOf, Repeat, Feed, MessageBits, Padded, Shifted;
    Limits();
    LengthOctetsBound(n, 4);
    LengthOctetsBound(m, 4);
    ZeroFileRegister(n);
    ZeroFileRegister(m);
    NotEqual(Memcrc(Repeat(0, n)), Memcrc(Repeat(0, m)));
    FourBytes(Padded(n), Padded(m));
    if |LengthOctets(n)| <= |LengthOctets(m)| {
      PaddedEqual(n, m);
      ShorterOctets(n, m);
      SelfShifted(n);
    } else {
      PaddedEqual(m, n);
      ShorterOctets(m, n);
      SelfShifted(n);
    }
  }

  lemma SelfShifted(n: nat)
    ensures Shifted(n, n)
  {
    assert n == n * Pow256(0);
  }

  lemma NotEqual(a: bv32, b: bv32)
    ensures BitsOf(!a) == BitsOf(!b) <==> a == b
  {
    hide BitsOf;
    BitsInjective(!a, !b);
    if a != b {
      NotDistinct(a, b);
    }
  }

  lemma NotDistinct(a: bv32, b: bv32)
    requires a != b
    ensures !a != !b
  {
    hide BitsOf;
    var k := DifferingBit(a, b);
    BitNot(a, k);
    BitNot(b, k);
  }
}
