/**
 AES in cipher-block-chaining mode (section 6.2 of NIST SP 800-38A) with the padding of
 section 6.3 of RFC 5652, as the client encrypts and the server decrypts.  The block cipher
 itself is a parameter.
 */
module Cipher {
  import opened Bytes

  const BLOCK: nat := 16

  /** The two directions of the block cipher: key and block in, block out. */
  datatype BlockCipher = BlockCipher(
    encrypt: (Bytes, Bytes) -> Bytes,
    decrypt: (Bytes, Bytes) -> Bytes)
  {
    /** For every key the two directions are inverse permutations of the 16-byte blocks. */
    ghost predicate Valid() {
      forall k: Bytes, b: Bytes {:trigger encrypt(k, b)} {:trigger decrypt(k, b)} | |b| == BLOCK ::
        && |encrypt(k, b)| == BLOCK && decrypt(k, encrypt(k, b)) == b
        && |decrypt(k, b)| == BLOCK && encrypt(k, decrypt(k, b)) == b
    }
  }

  const IV: Bytes := Repeat(0, BLOCK)

  function XorBytes(a: Bytes, b: Bytes): (r: Bytes)
    requires |a| == |b|
    ensures |r| == |a|
  {
    seq(|a|, i requires 0 <= i < |a| => a[i] ^ b[i])
  }

  lemma XorByteTwice(a: byte, b: byte)
    ensures (a ^ b) ^ b == a
  {
  }

  lemma XorTwice(a: Bytes, b: Bytes)
    requires |a| == |b|
    ensures XorBytes(XorBytes(a, b), b) == a
  {
    forall i | 0 <= i < |a| ensures XorBytes(XorBytes(a, b), b)[i] == a[i] {
      XorByteTwice(a[i], b[i]);
    }
  }

  /** Chain the whole blocks of `p`; each is added to the block of cipher before it. */
  function Chain(c: BlockCipher, key: Bytes, prev: Bytes, p: Bytes): Bytes
    requires |prev| == BLOCK && c.Valid()
    decreases p
  {
    if |p| < BLOCK then []
    else
      var e := c.encrypt(key, XorBytes(p[..BLOCK], prev));
      e + Chain(c, key, e, p[BLOCK..])
  }

  function Unchain(c: BlockCipher, key: Bytes, prev: Bytes, e: Bytes): Bytes
    requires |prev| == BLOCK && c.Valid()
    decreases e
  {
    if |e| < BLOCK then []
    else XorBytes(c.decrypt(key, e[..BLOCK]), prev) + Unchain(c, key, e[..BLOCK], e[BLOCK..])
  }

  // ---- padding -----------------------------------------------------------------------------

  function PadLength(n: nat): (k: nat)
    ensures 1 <= k <= BLOCK && (n + k) % BLOCK == 0
  {
    BLOCK - n % BLOCK
  }

  function Pad(p: Bytes): Bytes {
    p + Repeat(ByteOf(PadLength(|p|)), PadLength(|p|))
  }

  /** Fails as the library's `unpad` does: no data, a partial block, or a tail that is no padding. */
  function Unpad(d: Bytes): Option<Bytes> {
    if |d| == 0 || |d| % BLOCK != 0 then None
    else
      var k := d[|d| - 1] as nat;
      if k < 1 || k > BLOCK || d[|d| - k..] != Repeat(d[|d| - 1], k) then None
      else Some(d[..|d| - k])
  }

  lemma UnpadOfPad(p: Bytes)
    ensures Unpad(Pad(p)) == Some(p)
  {
    var k := PadLength(|p|);
    assert Pad(p)[|p|..] == Repeat(ByteOf(k), k);
    assert Pad(p)[..|p|] == p;
  }

  lemma PadOfUnpad(d: Bytes)
    requires Unpad(d).Some?
    ensures Pad(Unpad(d).value) == d
  {
    var k := d[|d| - 1] as nat;
    var p := Unpad(d).value;
    assert PadLength(|p|) == k;
    ByteOfNat(d[|d| - 1]);
    assert d == d[..|d| - k] + d[|d| - k..];
  }

  // ---- the two programs' operations -----------------------------------------------------------

  /** One-shot CBC encryption of the padded text under the all-zero initialisation vector. */
  function Encrypt(c: BlockCipher, key: Bytes, plain: Bytes): Bytes
    requires c.Valid()
  {
    Chain(c, key, IV, Pad(plain))
  }

  /** Server/CryptoHandler.py: `decrypt_file`, after the key has been looked up. */
  function Decrypt(c: BlockCipher, key: Bytes, cipher: Bytes): Option<Bytes>
    requires c.Valid()
  {
    if |key| !in {16, 24, 32} || |cipher| % BLOCK != 0 then None
    else Unpad(Unchain(c, key, IV, cipher))
  }

  lemma {:induction false} ChainInverse(c: BlockCipher, key: Bytes, prev: Bytes, p: Bytes)
    requires |prev| == BLOCK && c.Valid() && |p| % BLOCK == 0
    ensures |Chain(c, key, prev, p)| == |p|
    ensures Unchain(c, key, prev, Chain(c, key, prev, p)) == p
    decreases p
  {
    if |p| >= BLOCK {
      var x := XorBytes(p[..BLOCK], prev);
      var e := c.encrypt(key, x);
      var rest := Chain(c, key, e, p[BLOCK..]);
      ChainInverse(c, key, e, p[BLOCK..]);
      assert (e + rest)[..BLOCK] == e && (e + rest)[BLOCK..] == rest;
      XorTwice(p[..BLOCK], prev);
      assert p == p[..BLOCK] + p[BLOCK..];
    }
  }

  lemma {:induction false} UnchainInverse(c: BlockCipher, key: Bytes, prev: Bytes, e: Bytes)
    requires |prev| == BLOCK && c.Valid() && |e| % BLOCK == 0
    ensures |Unchain(c, key, prev, e)| == |e|
    ensures Chain(c, key, prev, Unchain(c, key, prev, e)) == e
    decreases e
  {
    hide XorBytes;
    if |e| >= BLOCK {
      var first := e[..BLOCK];
      var d := c.decrypt(key, first);
      var x := XorBytes(d, prev);
      var rest := Unchain(c, key, first, e[BLOCK..]);
      UnchainInverse(c, key, first, e[BLOCK..]);
      assert (x + rest)[..BLOCK] == x && (x + rest)[BLOCK..] == rest;
      XorTwice(d, prev);
      assert e == first + e[BLOCK..];
    }
  }

  /** What the block of cipher before the one at `at` has in place `j`. */
  function Before(prev: Bytes, e: Bytes, at: nat, j: nat): byte
    requires |prev| == BLOCK && at + BLOCK <= |e| && (at == 0 || at >= BLOCK) && j < BLOCK
  {
    if at == 0 then prev[j] else e[at - BLOCK + j]
  }

  lemma ChainFirst(c: BlockCipher, key: Bytes, prev: Bytes, p: Bytes, j: nat)
    requires |prev| == BLOCK && c.Valid() && |p| >= BLOCK && j < BLOCK
    ensures |Chain(c, key, prev, p)| >= BLOCK
    ensures c.decrypt(key, Chain(c, key, prev, p)[..BLOCK])[j] == p[j] ^ prev[j]
  {
    var x := XorBytes(p[..BLOCK], prev);
    var e := c.encrypt(key, x);
    assert (e + Chain(c, key, e, p[BLOCK..]))[..BLOCK] == e;
    assert c.decrypt(key, e) == x;
  }

  lemma ChainNext(c: BlockCipher, key: Bytes, prev: Bytes, p: Bytes) returns (first: Bytes)
    requires |prev| == BLOCK && c.Valid() && |p| >= BLOCK
    ensures |first| == BLOCK && Chain(c, key, prev, p) == first + Chain(c, key, first, p[BLOCK..])
  {
    first := c.encrypt(key, XorBytes(p[..BLOCK], prev));
  }

  /** The block of `e` at `at` decrypts to the text added to the cipher before it. */
  ghost predicate Chained(c: BlockCipher, key: Bytes, prev: Bytes, p: Bytes, e: Bytes, at: nat, j: nat)
    requires |prev| == BLOCK && c.Valid() && |e| == |p| && at + BLOCK <= |p| && j < BLOCK
    requires at == 0 || at >= BLOCK
  {
    c.decrypt(key, e[at..at + BLOCK])[j] == p[at + j] ^ Before(prev, e, at, j)
  }

  lemma ChainedLater(
    c: BlockCipher, key: Bytes, prev: Bytes, first: Bytes, p: Bytes, rest: Bytes, at: nat, j: nat)
    requires |prev| == |first| == BLOCK && c.Valid() && BLOCK + |rest| == |p|
    requires at + BLOCK <= |rest| && (at == 0 || at >= BLOCK) && j < BLOCK
    requires Chained(c, key, first, p[BLOCK..], rest, at, j)
    ensures Chained(c, key, prev, p, first + rest, at + BLOCK, j)
  {
    hide BlockCipher.Valid;
    var e := first + rest;
    assert e[at + BLOCK..at + BLOCK + BLOCK] == rest[at..at + BLOCK];
  }

  /** CBC as the standard states it, for every block. */
  lemma {:induction false} ChainBytes(c: BlockCipher, key: Bytes, prev: Bytes, p: Bytes, at: nat, j: nat)
    requires |prev| == BLOCK && c.Valid() && |p| % BLOCK == at % BLOCK == 0 && at + BLOCK <= |p| && j < BLOCK
    ensures |Chain(c, key, prev, p)| == |p|
    ensures Chained(c, key, prev, p, Chain(c, key, prev, p), at, j)
    decreases at
  {
    hide Chain, XorBytes, Unchain, BlockCipher.Valid, Before;
    ChainInverse(c, key, prev, p);
    if at == 0 {
      ChainedFirst(c, key, prev, p, j);
    } else {
      hide Chained;
      var first := ChainNext(c, key, prev, p);
      ChainInverse(c, key, first, p[BLOCK..]);
      ChainBytes(c, key, first, p[BLOCK..], at - BLOCK, j);
      ChainedLater(c, key, prev, first, p, Chain(c, key, first, p[BLOCK..]), at - BLOCK, j);
    }
  }

  lemma ChainedFirst(c: BlockCipher, key: Bytes, prev: Bytes, p: Bytes, j: nat)
    requires |prev| == BLOCK && c.Valid() && |p| >= BLOCK && j < BLOCK
    requires |Chain(c, key, prev, p)| == |p|
    ensures Chained(c, key, prev, p, Chain(c, key, prev, p), 0, j)
  {
    hide Chain, XorBytes;
    ChainFirst(c, key, prev, p, j);
  }

  lemma PaddedByte(p: Bytes, i: nat)
    requires i < BLOCK * (|p| / BLOCK + 1)
    ensures |Pad(p)| == BLOCK * (|p| / BLOCK + 1)
    ensures Pad(p)[i] == if i < |p| then p[i] else ByteOf(BLOCK - |p| % BLOCK)
  {
  }

  lemma EncryptedBytes(c: BlockCipher, key: Bytes, plain: Bytes, at: nat, j: nat)
    requires c.Valid() && at % BLOCK == 0 && at + BLOCK <= |Pad(plain)| && j < BLOCK
    ensures var e := Encrypt(c, key, plain);
      && |e| == |Pad(plain)|
      && c.decrypt(key, e[at..at + BLOCK])[j] == Pad(plain)[at + j] ^ (if at == 0 then 0 else e[at - BLOCK + j])
  {
    hide Chain, BlockCipher.Valid, PadLength;
    ChainBytes(c, key, IV, Pad(plain), at, j);
  }

  /**
   The whole of the client's encryption, byte by byte: AES blocks that decrypt to text and padding,
   each added to the block of cipher before it, the first to zeros.
   */
  lemma CbcEquation(c: BlockCipher, key: Bytes, plain: Bytes, n: nat, j: nat)
    requires c.Valid() && n <= |plain| / 16 && j < 16
    ensures var e := Encrypt(c, key, plain); var i := 16 * n + j;
      && |e| == 16 * (|plain| / 16 + 1)
      && c.decrypt(key, e[16 * n..16 * n + 16])[j] ==
         (if i < |plain| then plain[i] else ByteOf(16 - |plain| % 16)) ^ (if n == 0 then 0 else e[i - 16])
  {
    hide Encrypt, BlockCipher.Valid, Pad;
    PaddedByte(plain, 16 * n + j);
    EncryptedBytes(c, key, plain, 16 * n, j);
  }

  /**
   Decryption succeeds on exactly one ciphertext per text and key of a valid length: the one encryption
   makes.  Anything else is an error or another text.
   */
  lemma DecryptIffEncrypt(c: BlockCipher, key: Bytes, cipher: Bytes, plain: Bytes)
    requires c.Valid()
    ensures Decrypt(c, key, cipher) == Some(plain) <==>
            |key| in {16, 24, 32} && cipher == Encrypt(c, key, plain)
    ensures |Encrypt(c, key, plain)| == 16 * (|plain| / 16 + 1)
  {
    UnpadOfPad(plain);
    ChainInverse(c, key, IV, Pad(plain));
    if Decrypt(c, key, cipher) == Some(plain) {
      UnchainInverse(c, key, IV, cipher);
      PadOfUnpad(Unchain(c, key, IV, cipher));
    }
  }

  // ---- the streaming filter and the client's loop ---------------------------------------------

  /** The block the next one is chained to, after `e` has been produced. */
  function LastBlock(prev: Bytes, e: Bytes): (b: Bytes)
    requires |prev| == BLOCK
    ensures |b| == BLOCK
  {
    if |e| < BLOCK then prev else e[|e| - BLOCK..]
  }

  lemma ChainCons(c: BlockCipher, key: Bytes, prev: Bytes, b: Bytes, p: Bytes)
    requires |prev| == |b| == BLOCK && c.Valid()
    ensures var e := c.encrypt(key, XorBytes(b, prev));
      |e| == BLOCK && Chain(c, key, prev, b + p) == e + Chain(c, key, e, p)
  {
    assert (b + p)[..BLOCK] == b && (b + p)[BLOCK..] == p;
  }

  lemma {:induction false} ChainAppend(c: BlockCipher, key: Bytes, prev: Bytes, a: Bytes, b: Bytes)
    requires |prev| == BLOCK && c.Valid() && |a| % BLOCK == 0
    ensures Chain(c, key, prev, a + b) ==
            Chain(c, key, prev, a) + Chain(c, key, LastBlock(prev, Chain(c, key, prev, a)), b)
    decreases |a|
  {
    if a == [] {
      assert a + b == b;
    } else {
      ChainAppendStep(c, key, prev, a[..BLOCK], a[BLOCK..], b);
      assert a == a[..BLOCK] + a[BLOCK..];
    }
  }

  lemma {:induction false} ChainAppendStep(
    c: BlockCipher, key: Bytes, prev: Bytes, first: Bytes, tail: Bytes, b: Bytes)
    requires |prev| == |first| == BLOCK && c.Valid() && |tail| % BLOCK == 0
    ensures var a := first + tail;
      Chain(c, key, prev, a + b) ==
      Chain(c, key, prev, a) + Chain(c, key, LastBlock(prev, Chain(c, key, prev, a)), b)
    decreases |tail| + 1
  {
    hide Chain, XorBytes, LastBlock, BlockCipher.Valid;
    var e := c.encrypt(key, XorBytes(first, prev));
    ChainCons(c, key, prev, first, tail + b);
    ChainCons(c, key, prev, first, tail);
    assert (first + tail) + b == first + (tail + b);
    ChainAppend(c, key, e, tail, b);
    ChainInverse(c, key, e, tail);
    LastOfChain(prev, e, Chain(c, key, e, tail));
  }

  lemma LastOfChain(prev: Bytes, e: Bytes, rest: Bytes)
    requires |prev| == |e| == BLOCK && |rest| % BLOCK == 0
    ensures LastBlock(prev, e + rest) == LastBlock(e, rest)
  {
    if |rest| == 0 {
      assert e + rest == e;
    }
  }

  lemma LastOfSink(iv: Bytes, sink: Bytes, e: Bytes)
    requires |iv| == |e| == BLOCK
    ensures LastBlock(iv, sink + e) == e
  {
  }

  lemma ChainBlock(c: BlockCipher, key: Bytes, prev: Bytes, b: Bytes)
    requires |prev| == BLOCK && c.Valid() && |b| == BLOCK
    ensures Chain(c, key, prev, b) == c.encrypt(key, XorBytes(b, prev))
    ensures |c.encrypt(key, XorBytes(b, prev))| == BLOCK
  {
    assert b[..BLOCK] == b && b[BLOCK..] == [];
  }

  /**
   The library's transformation filter: whole blocks go out as soon as they are complete.
   `fed` is all the text put in so far.
   */
  class CbcFilter {
    const cipher: BlockCipher
    const key: Bytes
    const iv: Bytes
    var prev: Bytes
    var pending: Bytes
    var sink: Bytes
    ghost var fed: Bytes

    /** The whole blocks of the text are in the sink, chained; the rest is pending. */
    ghost predicate Valid()
      reads this
    {
      && cipher.Valid() && |iv| == BLOCK && |pending| < BLOCK && |pending| <= |fed|
      && Consistent()
    }

    ghost predicate Consistent()
      requires cipher.Valid() && |iv| == BLOCK && |pending| <= |fed|
      reads this
    {
      var whole := fed[..|fed| - |pending|];
      && |whole| % BLOCK == 0
      && fed == whole + pending
      && sink == Chain(cipher, key, iv, whole)
      && prev == LastBlock(iv, sink)
    }

    constructor (cipher: BlockCipher, key: Bytes, iv: Bytes)
      requires cipher.Valid() && |iv| == BLOCK
      ensures Valid() && this.cipher == cipher && this.key == key && this.iv == iv
      ensures fed == [] && sink == []
    {
      this.cipher, this.key, this.iv, this.prev := cipher, key, iv, iv;
      this.pending, this.sink, this.fed := [], [], [];
    }

    /** Encrypt the first pending block. */
    method Flush()
      requires cipher.Valid() && |iv| == BLOCK && BLOCK <= |pending| <= |fed| && Consistent()
      modifies this
      ensures fed == old(fed) && pending == old(pending)[BLOCK..] && |pending| <= |fed| && Consistent()
    {
      hide Chain, XorBytes, Repeat, LastBlock, BlockCipher.Valid;
      ghost var whole := fed[..|fed| - |pending|];
      var b, rest := pending[..BLOCK], pending[BLOCK..];
      var e := cipher.encrypt(key, XorBytes(b, prev));
      ChainAppend(cipher, key, iv, whole, b);
      ChainBlock(cipher, key, prev, b);
      assert sink + e == Chain(cipher, key, iv, whole + b);
      assert fed == (whole + b) + rest;
      assert fed[..|fed| - |rest|] == whole + b;
      LastOfSink(iv, sink, e);
      sink, prev, pending := sink + e, e, rest;
    }

    method Put(data: Bytes)
      requires Valid()
      modifies this
      ensures Valid() && fed == old(fed) + data
    {
      hide Chain, XorBytes, Repeat, LastBlock, BlockCipher.Valid;
      ghost var whole := fed[..|fed| - |pending|];
      pending, fed := pending + data, fed + data;
      assert fed[..|fed| - |pending|] == whole;
      while |pending| >= BLOCK
        invariant cipher.Valid() && |iv| == BLOCK && |pending| <= |fed|
        invariant fed == old(fed) + data && Consistent()
        decreases |pending|
      {
        Flush();
      }
    }

    /** Pads what is left and flushes it. */
    method MessageEnd()
      requires Valid()
      modifies this
      ensures Valid() && sink == Chain(cipher, key, iv, Pad(old(fed)))
    {
      hide Chain, XorBytes, LastBlock, BlockCipher.Valid;
      var k := PadLength(|pending|);
      assert k == PadLength(|fed|);
      Put(Repeat(ByteOf(k), k));
      assert |pending| == 0;
      assert fed[..|fed| - |pending|] == fed;
    }
  }

  /** Client/EncryptionHandler.cpp: `encryptMsg`, feeding the filter at most a block at a time. */
  method EncryptMsg(c: BlockCipher, key: Bytes, plain: Bytes) returns (cipher: Bytes)
    requires c.Valid()
    ensures cipher == Encrypt(c, key, plain)
  {
    hide Chain, XorBytes, LastBlock, Pad, PadLength, CbcFilter.Valid;
    var filter := new CbcFilter(c, key, IV);
    var length := |plain|;
    var offset := 0;
    while offset < length
      invariant 0 <= offset <= length
      invariant filter.Valid() && filter.cipher == c && filter.key == key && filter.iv == IV
      invariant filter.fed == plain[..offset]
    {
      var chunkSize := if length - offset < BLOCK then length - offset else BLOCK;
      filter.Put(plain[offset..offset + chunkSize]);
      offset := offset + chunkSize;
    }
    assert plain[..length] == plain;
    filter.MessageEnd();
    cipher := filter.sink;
  }
}
