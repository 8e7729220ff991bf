/**
 `memcrc` as the two programs compute it: a register `s`, one table look-up for every byte
 of the file, then one for every octet of the length, least significant first, and the
 complement of what remains.
 */
module Crc {
  import opened Bytes
  import opened CrcTable

  const ROWS: seq<seq<bv32>> :=
    [ROW_0, ROW_1, ROW_2, ROW_3, ROW_4, ROW_5, ROW_6, ROW_7,
     ROW_8, ROW_9, ROW_A, ROW_B, ROW_C, ROW_D, ROW_E, ROW_F]

  function Concat<T>(rows: seq<seq<T>>): seq<T> {
    if rows == [] then [] else rows[0] + Concat(rows[1..])
  }

  const CRCTAB: seq<bv32> := Concat(ROWS)

  lemma {:induction false} ConcatAt<T>(rows: seq<seq<T>>, h: nat, l: nat)
    requires forall r :: 0 <= r < |rows| ==> |rows[r]| == 16
    ensures |Concat(rows)| == 16 * |rows|
    ensures h < |rows| && l < 16 ==> Concat(rows)[16 * h + l] == rows[h][l]
  {
    if rows != [] {
      ConcatAt(rows[1..], if h > 0 then h - 1 else 0, l);
    }
  }

  lemma Nibbles(b: byte)
    ensures b as int == 16 * ((b >> 4) as int) + ((b & 0x0f) as int)
    ensures (b & 0x0f) as int < 16 && (b >> 4) as int < 16
  {
  }

  /** All 256 numbers, checked against eight one-bit steps of the register. */
  lemma RowEntry(b: byte)
    ensures (b >> 4) as int < 16 && (b & 0x0f) as int < |ROWS[(b >> 4) as int]|
    ensures ROWS[(b >> 4) as int][(b & 0x0f) as int] == ShiftByte((b as bv32) << 24)
  {
  }

  lemma TableLength()
    ensures |CRCTAB| == 256
  {
    ConcatAt(ROWS, 0, 0);
  }

  /** Every byte finds its own eight one-bit steps in the table. */
  lemma TableEntry(b: byte)
    ensures |CRCTAB| == 256
    ensures CRCTAB[b as int] == ShiftByte((b as bv32) << 24)
  {
    Nibbles(b);
    RowEntry(b);
    ConcatAt(ROWS, (b >> 4) as int, (b & 0x0f) as int);
  }

  /** Exclusive or of two registers. */
  function Plus(a: bv32, b: bv32): bv32 {
    a ^ b
  }

  /** The register moves up a byte and takes in the table's entry for `tabidx`. */
  function LookUp(s: bv32, tabidx: byte): bv32 {
    TableLength();
    Plus(s << 8, CRCTAB[tabidx as int])
  }

  /** One byte of the message: the top byte of `s` and `ch` choose the entry. */
  function ByteStep(s: bv32, ch: byte): bv32 {
    LookUp(s, ((s >> 24) as byte) ^ ch)
  }

  function Absorb(s: bv32, data: Bytes): bv32
    decreases data
  {
    if data == [] then s else Absorb(ByteStep(s, data[0]), data[1..])
  }

  lemma {:induction false} AbsorbAppend(s: bv32, a: Bytes, b: Bytes)
    ensures Absorb(s, a + b) == Absorb(Absorb(s, a), b)
    decreases a
  {
    if a == [] {
      assert a + b == b;
    } else {
      assert (a + b)[1..] == a[1..] + b;
      AbsorbAppend(ByteStep(s, a[0]), a[1..], b);
    }
  }

  /** The octets of `n`, least significant first and as few as it takes: none for zero. */
  function LengthOctets(n: nat): Bytes {
    if n == 0 then [] else [ByteOf(n % 256)] + LengthOctets(n / 256)
  }

  /** The checksum of a file. */
  function Memcrc(data: Bytes): bv32 {
    !Absorb(0, data + LengthOctets(|data|))
  }

  lemma WideIndex(s: bv32, ch: byte)
    ensures ((s as bv64) >> 24) ^ (ch as bv64) == ((((s >> 24) as byte) ^ ch) as bv64)
  {
  }

  lemma WideShift(s: bv32, entry: bv32)
    ensures (((s as bv64) << 8) & 0xffff_ffff) ^ (entry as bv64) == ((s << 8) ^ entry) as bv64
  {
  }

  lemma WideNot(s: bv32)
    ensures !(s as bv64) & 0xffff_ffff == (!s) as bv64
  {
  }

  /** The index both programs compute on a register wider than 32 bits stays below 256. */
  method TableIndex(s: bv64, ch: byte, ghost low: bv32) returns (tabidx: byte)
    requires s == low as bv64
    ensures tabidx == ((low >> 24) as byte) ^ ch
  {
    WideIndex(low, ch);
    tabidx := ((s >> 24) ^ (ch as bv64)) as byte;
  }

  /** The mask keeps the register below 2^32, so the extra width never shows. */
  method MaskedShift(s: bv64, entry: bv32, ghost low: bv32) returns (r: bv64)
    requires s == low as bv64
    ensures r == ((low << 8) ^ entry) as bv64
  {
    WideShift(low, entry);
    r := ((s << 8) & 0xffff_ffff) ^ (entry as bv64);
  }

  /** The statement both loops of `memcrc` run for every byte. */
  method Update(s: bv64, ch: byte, ghost low: bv32) returns (r: bv64, ghost next: bv32)
    requires s == low as bv64
    ensures next == ByteStep(low, ch)
    ensures r == next as bv64
  {
    TableLength();
    var tabidx := TableIndex(s, ch, low);
    r := MaskedShift(s, CRCTAB[tabidx as int], low);
    next := ByteStep(low, ch);
  }

  lemma OctetStep(s: bv32, n: nat)
    requires n != 0
    ensures Absorb(s, LengthOctets(n)) == Absorb(ByteStep(s, ByteOf(n % 256)), LengthOctets(n / 256))
  {
    assert LengthOctets(n)[1..] == LengthOctets(n / 256);
  }

  /**
   `memcrc`: the same two loops in both programs. `low` is the 32-bit register the wider
   variable always holds.
   */
  method ComputeMemcrc(b: Bytes) returns (crc: bv64)
    ensures crc == Memcrc(b) as bv64
  {
    var n: nat := |b|;
    var s: bv64 := 0;
    ghost var low: bv32 := 0;
    for i := 0 to n
      invariant s == low as bv64
      invariant Absorb(low, b[i..]) == Absorb(0, b)
    {
      s, low := Update(s, b[i], low);
      assert b[i..][1..] == b[i + 1..];
    }
    AbsorbAppend(0, b, LengthOctets(n));
    assert b[n..] == [];
    while n != 0
      invariant s == low as bv64
      invariant Absorb(low, LengthOctets(n)) == Absorb(0, b + LengthOctets(|b|))
    {
      OctetStep(low, n);
      var c := ByteOf(n % 256);
      n := n / 256;
      s, low := Update(s, c, low);
    }
    WideNot(low);
    crc := !s & 0xffff_ffff;
  }

  // ---- a known value ---------------------------------------------------------------------------

  lemma StepIs(s: bv32, ch: byte, t: bv32)
    requires Plus(s << 8, ShiftByte(((((s >> 24) as byte) ^ ch) as bv32) << 24)) == t
    ensures ByteStep(s, ch) == t
  {
    hide ShiftByte;
    TableEntry(((s >> 24) as byte) ^ ch);
  }

  lemma AbsorbNext(s: bv32, t: bv32, data: Bytes, i: nat)
    requires i < |data| && ByteStep(s, data[i]) == t
    ensures Absorb(s, data[i..]) == Absorb(t, data[i + 1..])
  {
    hide ByteStep;
    assert data[i..][1..] == data[i + 1..];
  }

  lemma EmptyAbsorbed(s: bv32)
    ensures Absorb(s, []) == s
  {
  }

  lemma FirstSteps()
    ensures ByteStep(0, 0x31) == 0xd0f3_7027
    ensures ByteStep(0xd0f3_7027, 0x32) == 0x3f5b_3a17
    ensures ByteStep(0x3f5b_3a17, 0x33) == 0x6e36_8c64
  {
    hide ByteStep;
    StepIs(0, 0x31, 0xd0f3_7027);
    StepIs(0xd0f3_7027, 0x32, 0x3f5b_3a17);
    StepIs(0x3f5b_3a17, 0x33, 0x6e36_8c64);
  }

  lemma MiddleSteps()
    ensures ByteStep(0x6e36_8c64, 0x34) == 0x6191_19d1
    ensures ByteStep(0x6191_19d1, 0x35) == 0xfa8a_0cdb
    ensures ByteStep(0xfa8a_0cdb, 0x36) == 0xe28a_d0fd
  {
    hide ByteStep;
    StepIs(0x6e36_8c64, 0x34, 0x6191_19d1);
    StepIs(0x6191_19d1, 0x35, 0xfa8a_0cdb);
    StepIs(0xfa8a_0cdb, 0x36, 0xe28a_d0fd);
  }

  lemma LastSteps()
    ensures ByteStep(0xe28a_d0fd, 0x37) == 0x8c8e_dd82
    ensures ByteStep(0x8c8e_dd82, 0x38) == 0x20e7_79a2
  {
    hide ByteStep;
    StepIs(0xe28a_d0fd, 0x37, 0x8c8e_dd82);
    StepIs(0x8c8e_dd82, 0x38, 0x20e7_79a2);
  }

  lemma FinalSteps()
    ensures ByteStep(0x20e7_79a2, 0x39) == 0x89a1_897f
    ensures ByteStep(0x89a1_897f, 0x09) == 0xc885_9fee
  {
    hide ByteStep;
    StepIs(0x20e7_79a2, 0x39, 0x89a1_897f);
    StepIs(0x89a1_897f, 0x09, 0xc885_9fee);
  }

  const NINE: Bytes := [0x31, 0x32, 0x33, 0x34, 0x35, 0x36, 0x37, 0x38, 0x39]

  lemma NineAbsorbed()
    ensures Absorb(0, NINE + [9]) == 0xc885_9fee
  {
    hide Absorb, ByteStep;
    FirstSteps();
    MiddleSteps();
    LastSteps();
    FinalSteps();
    var m := NINE + [9];
    assert m[0..] == m && m[10..] == [];
    AbsorbNext(0, 0xd0f3_7027, m, 0);
    AbsorbNext(0xd0f3_7027, 0x3f5b_3a17, m, 1);
    AbsorbNext(0x3f5b_3a17, 0x6e36_8c64, m, 2);
    AbsorbNext(0x6e36_8c64, 0x6191_19d1, m, 3);
    AbsorbNext(0x6191_19d1, 0xfa8a_0cdb, m, 4);
    AbsorbNext(0xfa8a_0cdb, 0xe28a_d0fd, m, 5);
    AbsorbNext(0xe28a_d0fd, 0x8c8e_dd82, m, 6);
    AbsorbNext(0x8c8e_dd82, 0x20e7_79a2, m, 7);
    AbsorbNext(0x20e7_79a2, 0x89a1_897f, m, 8);
    AbsorbNext(0x89a1_897f, 0xc885_9fee, m, 9);
    EmptyAbsorbed(0xc885_9fee);
  }

  /** What `cksum` prints for the nine bytes "123456789". */
  lemma CheckValue()
    ensures Memcrc(NINE) == 930766865
  {
    hide Absorb;
    NineAbsorbed();
    assert LengthOctets(9) == [9] + LengthOctets(0);
    assert [9] + LengthOctets(0) == [9];
  }
}
