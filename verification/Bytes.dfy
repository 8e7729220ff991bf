/** Bytes, little-endian integers and the few sequence helpers every other module uses. */
module Bytes {

  type byte = bv8
  type Bytes = seq<byte>

  datatype Option<+T> = None | Some(value: T)

  /** The byte with value `n`; the conversion back is the identity. */
  function ByteOf(n: nat): (b: byte)
    requires n < 256
    ensures b as int == n
  {
    if n == 0 then 0 else ByteOf(n - 1) + 1
  }

  lemma ByteOfNat(b: byte)
    ensures ByteOf(b as int) == b
  {
    assert ByteOf(b as int) as int == b as int;
    assert ((ByteOf(b as int) as int) as bv8) == ByteOf(b as int);
  }

  /** `n` copies of `b`. */
  function Repeat(b: byte, n: nat): (s: Bytes)
    ensures |s| == n
    ensures forall i :: 0 <= i < n ==> s[i] == b
  {
    seq(n, _ => b)
  }

  /** Python's `s[lo:hi]` for non-negative bounds: it never fails, it clips. */
  function Slice(s: Bytes, lo: nat, hi: nat): (r: Bytes)
    requires lo <= hi
    ensures |s| >= hi ==> r == s[lo..hi]
    ensures |s| <= lo ==> r == []
  {
    if |s| <= lo then [] else if |s| < hi then s[lo..] else s[lo..hi]
  }

  // ---- little-endian unsigned integers --------------------------------------------------

  function Pow256(k: nat): (p: nat)
    ensures p > 0
  {
    if k == 0 then 1 else 256 * Pow256(k - 1)
  }

  /** The `k` low octets of `n`, least significant first. */
  function LE(n: nat, k: nat): (s: Bytes)
    ensures |s| == k
  {
    if k == 0 then [] else [ByteOf(n % 256)] + LE(n / 256, k - 1)
  }

  function FromLE(s: Bytes): nat {
    if s == [] then 0 else (s[0] as int) + 256 * FromLE(s[1..])
  }

  lemma {:induction false} FromLEOfLE(n: nat, k: nat)
    requires n < Pow256(k)
    ensures FromLE(LE(n, k)) == n
  {
    if k > 0 {
      FromLEOfLE(n / 256, k - 1);
      assert LE(n, k)[1..] == LE(n / 256, k - 1);
    }
  }

  /** The fields the protocol uses, octet by octet. */
  lemma FromLEOctets(s: Bytes)
    ensures |s| == 1 ==> FromLE(s) == s[0] as nat
    ensures |s| == 2 ==> FromLE(s) == s[0] as nat + 0x100 * s[1] as nat
    ensures |s| == 4 ==>
      FromLE(s) == s[0] as nat + 0x100 * s[1] as nat + 0x1_0000 * s[2] as nat + 0x100_0000 * s[3] as nat
  {
    if |s| == 2 {
      assert FromLE(s[1..]) == s[1] as nat + 256 * FromLE(s[1..][1..]);
      assert s[1..][1..] == [];
    } else if |s| == 4 {
      assert FromLE(s[3..]) == s[3] as nat + 256 * FromLE([]) by { assert s[3..][1..] == []; }
      assert FromLE(s[2..]) == s[2] as nat + 256 * FromLE(s[3..]) by { assert s[2..][1..] == s[3..]; }
      assert FromLE(s[1..]) == s[1] as nat + 256 * FromLE(s[2..]) by { assert s[1..][1..] == s[2..]; }
    }
  }

  const UINT16_LIMIT: nat := 0x1_0000
  const UINT32_LIMIT: nat := 0x1_0000_0000

  lemma Limits()
    ensures Pow256(1) == 256 && Pow256(2) == UINT16_LIMIT && Pow256(4) == UINT32_LIMIT
  {
    assert Pow256(0) == 1;
    assert Pow256(3) == 0x100_0000;
  }
}
