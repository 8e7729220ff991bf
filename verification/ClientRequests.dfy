/**
 Client/requestHandler.cpp: what the client puts into each request, and how large a file it
 will send at all.
 */
module ClientRequests {
  import opened Bytes
  import opened Cipher
  import opened Protocol

  // ---- sizes --------------------------------------------------------------------------------

  /** Round up to a whole number of blocks in 32-bit arithmetic. */
  function RoundUp(n: nat): (r: nat)
    requires n < UINT32_LIMIT
  {
    if n % BLOCK == 0 then n else (n + BLOCK - n % BLOCK) % UINT32_LIMIT
  }

  /** `totalEncryptedPacket`: fails beyond 65535 packets. */
  function TotalPackets(n: nat): Option<nat>
    requires n < UINT32_LIMIT
  {
    if RoundUp(n) / BLOCK >= UINT16_LIMIT then None else Some(RoundUp(n) / BLOCK)
  }

  /** How far the loop still has to go. */
  function Missing(n: nat): nat {
    (BLOCK - n % BLOCK) % BLOCK
  }

  lemma RoundedUp(n: nat)
    requires n < UINT32_LIMIT && n % BLOCK == 0
    ensures RoundUp(n) == n
  {
  }

  lemma NextRemainder(n: nat)
    ensures (n + 1) % BLOCK == if n % BLOCK == BLOCK - 1 then 0 else n % BLOCK + 1
  {
  }

  lemma RoundUpStep(n: nat)
    requires n < UINT32_LIMIT && n % BLOCK != 0
    ensures var next := if n + 1 == UINT32_LIMIT then 0 else n + 1;
      RoundUp(next) == RoundUp(n) && Missing(next) < Missing(n)
  {
    NextRemainder(n);
    var r := n % BLOCK;
    if r == BLOCK - 1 {
      assert n + BLOCK - r == n + 1;
    } else {
      assert n + 1 + BLOCK - (n + 1) % BLOCK == n + BLOCK - r;
    }
  }

  /** The loop of `totalEncryptedPacket`; `tmp` is a `uint32_t` and may wrap to zero. */
  method TotalEncryptedPacket(origSize: nat) returns (packets: Option<nat>)
    requires origSize < UINT32_LIMIT
    ensures packets == TotalPackets(origSize)
  {
    hide RoundUp, Missing;
    if origSize % BLOCK == 0 {
      RoundedUp(origSize);
      if origSize / BLOCK > UINT16_LIMIT - 1 {
        return None;
      }
      packets := Some(origSize / BLOCK);
    } else {
      var tmp: nat := origSize;
      while tmp % BLOCK != 0
        invariant tmp < UINT32_LIMIT
        invariant RoundUp(tmp) == RoundUp(origSize)
        decreases Missing(tmp)
      {
        RoundUpStep(tmp);
        tmp := if tmp + 1 == UINT32_LIMIT then 0 else tmp + 1;
      }
      RoundedUp(tmp);
      if tmp / BLOCK > UINT16_LIMIT - 1 {
        return None;
      }
      packets := Some(tmp / BLOCK);
    }
  }

  /** The length of the encrypted file. */
  function CipherSize(n: nat): nat {
    BLOCK * (n / BLOCK + 1)
  }

  /** `encryptFile` gets as far as filling the packet: no size check fails on the way. */
  predicate Sendable(n: nat) {
    n < UINT32_LIMIT && TotalPackets(n).Some? && CipherSize(n) < UINT32_LIMIT
  }

  /** The rounding wraps for the 15 largest sizes, and their packet count passes as zero. */
  lemma RoundingWraps(n: nat)
    requires n < UINT32_LIMIT
    ensures RoundUp(n) < n <==> UINT32_LIMIT - BLOCK < n
    ensures UINT32_LIMIT - BLOCK < n ==> TotalPackets(n) == Some(0)
  {
  }

  /**
   A file is sent exactly when it has at most 65535 blocks: the check on the cipher's size stops
   what the wrapped rounding lets through.  Then no length wraps, and the packet count is the
   number of blocks, rounded up; the cipher has as many unless the file ends on a block.
   */
  lemma SizeBound(n: nat)
    ensures Sendable(n) <==> n <= 65535 * BLOCK
    ensures Sendable(n) ==>
      && CONTENT_INDEX + CipherSize(n) < UINT32_LIMIT
      && TotalPackets(n).value == (n + BLOCK - 1) / BLOCK < UINT16_LIMIT
      && (TotalPackets(n).value * BLOCK == CipherSize(n) <==> n % BLOCK != 0)
  {
    if n < UINT32_LIMIT {
      RoundingWraps(n);
    }
  }

  // ---- the packets ----------------------------------------------------------------------------

  /** The client's fixed surroundings: transfer.info, the file, and the generated public key. */
  datatype Config = Config(userName: Bytes, fileName: Bytes, file: Bytes, publicKey: Bytes, privateKey: Bytes) {
    /** What `isValidUserName` enforces, and the size of the encoded key. */
    ghost predicate Valid() {
      1 <= |userName| <= 99 && |publicKey| == PUBLIC_KEY_SIZE
    }
  }

  // "ignoreignoreign" with its NUL
  const IGNORED_ID: Bytes := [
    0x69, 0x67, 0x6e, 0x6f, 0x72, 0x65, 0x69, 0x67, 0x6e, 0x6f, 0x72, 0x65, 0x69, 0x67, 0x6e, 0x00]

  function Terminate(name: Bytes): Bytes {
    name + [0]
  }

  function NameField(cfg: Config): (b: Bytes)
    ensures |b| == NAME_SIZE
  {
    PadName(cfg.fileName)[..NAME_SIZE]
  }

  /** The name the server stores the client's file under. */
  function StoredName(cfg: Config): Bytes {
    RemovePipes(NameField(cfg))
  }

  /** The payload of request 828 under the client's current key. */
  function EncryptedPayload(aes: BlockCipher, cfg: Config, key: Bytes): Bytes
    requires aes.Valid() && Sendable(|cfg.file|)
  {
    FilePayload(|cfg.file|, 1, TotalPackets(|cfg.file|).value, NameField(cfg), Encrypt(aes, key, cfg.file))
  }

  lemma EncryptedPayloadSize(aes: BlockCipher, cfg: Config, key: Bytes)
    requires aes.Valid() && Sendable(|cfg.file|)
    ensures |EncryptedPayload(aes, cfg, key)| == CONTENT_INDEX + CipherSize(|cfg.file|) < UINT32_LIMIT
  {
    SizeBound(|cfg.file|);
    CipherLength(aes, key, cfg.file);
  }

  lemma SmallNumber(b: Bytes, n: nat, k: nat)
    requires b == LE(n, k) && n < Pow256(k)
    ensures FromLE(b) == n
  {
    FromLEOfLE(n, k);
  }

  /**
   Byte for byte the payload of an 828: size of the cipher, size of the file, packet 1 of as many as the
   file has blocks, the last one perhaps not full, the name up to 255 bytes and pipes after it, and a cipher
   that decrypts to the file.
   */
  lemma UploadFields(aes: BlockCipher, cfg: Config, key: Bytes)
    requires aes.Valid() && Sendable(|cfg.file|)
    ensures var p := EncryptedPayload(aes, cfg, key); var cipherSize := 16 * (|cfg.file| / 16 + 1);
      && |p| == 267 + cipherSize
      && FromLE(p[..4]) == cipherSize
      && FromLE(p[4..8]) == |cfg.file|
      && FromLE(p[8..10]) == 1
      && FromLE(p[10..12]) == (|cfg.file| + 15) / 16
      && (forall i :: 0 <= i < 255 ==> p[12 + i] == if i < |cfg.fileName| then cfg.fileName[i] else 0x7c)
      && (|key| in {16, 24, 32} ==> Decrypt(aes, key, p[267..]) == Some(cfg.file))
  {
    hide LE, FromLE, Encrypt, Decrypt, FilePayload, TotalPackets, Pow256;
    Limits();
    var content := Encrypt(aes, key, cfg.file);
    var packets := TotalPackets(|cfg.file|).value;
    var p := EncryptedPayload(aes, cfg, key);
    FilePayloadParts(|cfg.file|, 1, packets, NameField(cfg), content);
    EncryptedPayloadSize(aes, cfg, key);
    CipherLength(aes, key, cfg.file);
    SizeBound(|cfg.file|);
    SmallNumber(p[..4], |content|, 4);
    SmallNumber(p[4..8], |cfg.file|, 4);
    SmallNumber(p[8..10], 1, 2);
    SmallNumber(p[10..12], packets, 2);
    assert p[NAME_INDEX..CONTENT_INDEX] == NameField(cfg);
    forall i | 0 <= i < 255 ensures p[12 + i] == if i < |cfg.fileName| then cfg.fileName[i] else 0x7c {
      assert p[12 + i] == p[NAME_INDEX..CONTENT_INDEX][i];
    }
    DecryptIffEncrypt(aes, key, content, cfg.file);
  }

  lemma CipherLength(aes: BlockCipher, key: Bytes, plain: Bytes)
    requires aes.Valid()
    ensures |Encrypt(aes, key, plain)| == CipherSize(|plain|)
  {
    ChainInverse(aes, key, IV, Pad(plain));
  }

  /** `encryptFile`: sizes, encryption, and the packet's payload filled in place. */
  method EncryptFile(aes: BlockCipher, cfg: Config, key: Bytes) returns (payload: Option<Bytes>)
    requires aes.Valid()
    ensures payload ==
      if Sendable(|cfg.file|) then Some(EncryptedPayload(aes, cfg, key)) else None
  {
    hide Encrypt, FilePayload, PadName, TotalPackets;
    var origSize: nat := |cfg.file|;
    if origSize >= UINT32_LIMIT {
      return None;
    }
    var packets := TotalEncryptedPacket(origSize);
    if packets.None? {
      return None;
    }
    var content := EncryptMsg(aes, key, cfg.file);
    CipherLength(aes, key, cfg.file);
    if |content| >= UINT32_LIMIT {
      return None;
    }
    var name := GetFileName(cfg.fileName);
    var buffer := new byte[CONTENT_INDEX + |content|];
    SetEncryptionPayload(origSize, 1, packets.value, name[..NAME_SIZE], content, buffer);
    payload := Some(buffer[..]);
  }
}
