/**
 The packets of the protocol: codes, the two fixed headers, and the payload of request 828,
 with both directions of each encoding.
 */
module Protocol {
  import opened Bytes

  const VERSION: nat := 3
  const UID_SIZE: nat := 16
  const NAME_SIZE: nat := 255
  const PUBLIC_KEY_SIZE: nat := 160
  const AES_KEY_SIZE: nat := 32
  const CHUNK_SIZE: nat := 1024
  const REQUEST_HEADER_SIZE: nat := 23
  const RESPONSE_HEADER_SIZE: nat := 7
  const NAME_INDEX: nat := 12
  const CONTENT_INDEX: nat := 267

  // Request codes
  const REGISTER: nat := 825
  const S_PUBLIC_KEY: nat := 826
  const RECONNECT: nat := 827
  const SEND_FILE: nat := 828
  const VALID_CRC: nat := 900
  const N_VALID_CRC: nat := 901
  const EXIT_CRC: nat := 902

  // Response codes
  const REG_SUCCESSFUL: nat := 1600
  const REG_FAILED: nat := 1601
  const IN_PUBLIC_OUT_AES: nat := 1602
  const VALID_CRC_FILE: nat := 1603
  const MSG_RECEIVED: nat := 1604
  const OK_RECONNECT: nat := 1605
  const RECONNECT_FAILED: nat := 1606
  const GENERAL_ERROR: nat := 1607

  /** The request codes the server has a handler for. */
  predicate Known(code: nat) {
    || code == REGISTER || code == S_PUBLIC_KEY || code == RECONNECT || code == SEND_FILE
    || code == VALID_CRC || code == N_VALID_CRC || code == EXIT_CRC
  }

  lemma KnownCodes()
    ensures Known(REGISTER) && Known(S_PUBLIC_KEY) && Known(RECONNECT) && Known(SEND_FILE)
    ensures Known(VALID_CRC) && Known(N_VALID_CRC) && Known(EXIT_CRC)
    ensures REGISTER != N_VALID_CRC && S_PUBLIC_KEY != N_VALID_CRC && RECONNECT != N_VALID_CRC
    ensures SEND_FILE != N_VALID_CRC && VALID_CRC != N_VALID_CRC
    ensures REGISTER != S_PUBLIC_KEY && REGISTER != RECONNECT && REGISTER != SEND_FILE && REGISTER != VALID_CRC
  {
  }

  datatype Request = Request(clientID: Bytes, version: nat, code: nat, payload: Bytes) {
    /** The field widths of the header. */
    ghost predicate Fits() {
      |clientID| == UID_SIZE && version < 256 && code < UINT16_LIMIT && |payload| < UINT32_LIMIT
    }
  }

  /** A 901: the server goes on to the next request without an answer. */
  predicate Silent(r: Request) {
    r.version == VERSION && r.code == N_VALID_CRC
  }

  /** A code the server has no handler for: the session ends. */
  predicate Unknown(r: Request) {
    r.version == VERSION && !Known(r.code)
  }

  datatype Response = Response(version: nat, code: nat, payload: Bytes) {
    ghost predicate Fits() {
      version < 256 && code < UINT16_LIMIT && |payload| < UINT32_LIMIT
    }
  }

  datatype Header = Header(clientID: Bytes, version: nat, code: nat, size: nat)

  // ---- request header: 16-byte id, version, code, payload size -----------------------------

  function RequestHeader(h: Header): (b: Bytes)
    requires |h.clientID| == UID_SIZE
    ensures |b| == REQUEST_HEADER_SIZE
  {
    h.clientID + LE(h.version, 1) + LE(h.code, 2) + LE(h.size, 4)
  }

  /** The server's `struct.unpack('<16sBHI', data)`. */
  function ParseRequestHeader(b: Bytes): (h: Header)
    requires |b| == REQUEST_HEADER_SIZE
    ensures |h.clientID| == UID_SIZE
  {
    Header(b[..16], FromLE(b[16..17]), FromLE(b[17..19]), FromLE(b[19..]))
  }

  lemma HeaderRoundTrip(h: Header)
    requires |h.clientID| == UID_SIZE && h.version < 256
    requires h.code < UINT16_LIMIT && h.size < UINT32_LIMIT
    ensures ParseRequestHeader(RequestHeader(h)) == h
  {
    Limits();
    FromLEOfLE(h.version, 1);
    FromLEOfLE(h.code, 2);
    FromLEOfLE(h.size, 4);
    var b := RequestHeader(h);
    assert b[16..17] == LE(h.version, 1);
    assert b[17..19] == LE(h.code, 2);
    assert b[19..] == LE(h.size, 4);
  }

  /** Where each field of a request stands on the wire, least significant octets first. */
  lemma RequestLayout(h: Header)
    requires |h.clientID| == UID_SIZE && h.version < 256
    requires h.code < UINT16_LIMIT && h.size < UINT32_LIMIT
    ensures var b := RequestHeader(h);
      && b[..16] == h.clientID && b[16] as nat == h.version
      && b[17] as nat + 0x100 * b[18] as nat == h.code
      && b[19] as nat + 0x100 * b[20] as nat + 0x1_0000 * b[21] as nat + 0x100_0000 * b[22] as nat == h.size
  {
    hide LE, FromLE;
    Limits();
    FromLEOfLE(h.version, 1);
    FromLEOfLE(h.code, 2);
    FromLEOfLE(h.size, 4);
    var b := RequestHeader(h);
    FromLEOctets(b[16..17]);
    FromLEOctets(b[17..19]);
    FromLEOctets(b[19..]);
    assert b[16..17] == LE(h.version, 1) && b[17..19] == LE(h.code, 2) && b[19..] == LE(h.size, 4);
  }

  function EncodeRequest(r: Request): (b: Bytes)
    requires r.Fits()
    ensures |b| == REQUEST_HEADER_SIZE + |r.payload|
  {
    RequestHeader(Header(r.clientID, r.version, r.code, |r.payload|)) + r.payload
  }

  // ---- response header: version, code, payload size ----------------------------------------

  /** The server's `init_response`. */
  function EncodeResponse(r: Response): (b: Bytes)
    ensures |b| == RESPONSE_HEADER_SIZE + |r.payload|
  {
    LE(r.version, 1) + LE(r.code, 2) + LE(|r.payload|, 4) + r.payload
  }

  /** Where each field of a response stands on the wire. */
  lemma ResponseLayout(r: Response)
    requires r.Fits()
    ensures var b := EncodeResponse(r);
      && b[0] as nat == r.version && b[1] as nat + 0x100 * b[2] as nat == r.code
      && b[3] as nat + 0x100 * b[4] as nat + 0x1_0000 * b[5] as nat + 0x100_0000 * b[6] as nat == |r.payload|
      && b[7..] == r.payload
  {
    hide LE, FromLE;
    Limits();
    FromLEOfLE(r.version, 1);
    FromLEOfLE(r.code, 2);
    FromLEOfLE(|r.payload|, 4);
    var b := EncodeResponse(r);
    FromLEOctets(b[..1]);
    FromLEOctets(b[1..3]);
    FromLEOctets(b[3..7]);
    assert b[..1] == LE(r.version, 1) && b[1..3] == LE(r.code, 2) && b[3..7] == LE(|r.payload|, 4);
  }

  /** The client's reading of one response off the stream: the packet and what follows it. */
  function ParseResponse(b: Bytes): Option<(Response, Bytes)> {
    if |b| < RESPONSE_HEADER_SIZE then None
    else
      var size := FromLE(b[3..7]);
      if |b| < RESPONSE_HEADER_SIZE + size then None
      else Some((Response(FromLE(b[..1]), FromLE(b[1..3]), b[7..7 + size]), b[7 + size..]))
  }

  lemma ResponseRoundTrip(r: Response, rest: Bytes)
    requires r.Fits()
    ensures ParseResponse(EncodeResponse(r) + rest) == Some((r, rest))
  {
    Limits();
    FromLEOfLE(r.version, 1);
    FromLEOfLE(r.code, 2);
    FromLEOfLE(|r.payload|, 4);
    var b := EncodeResponse(r) + rest;
    assert b[..1] == LE(r.version, 1);
    assert b[1..3] == LE(r.code, 2);
    assert b[3..7] == LE(|r.payload|, 4);
    assert b[7..7 + |r.payload|] == r.payload;
    assert b[7 + |r.payload|..] == rest;
  }

  // ---- the client writes its headers and payloads into buffers, piece by piece ----------------

  /** `memcpy(dst + at, src, |src|)`. */
  method Memcpy(dst: array<byte>, at: nat, src: Bytes)
    requires at + |src| <= dst.Length
    modifies dst
    ensures dst[..] == old(dst[..at]) + src + old(dst[at + |src|..])
  {
    for i := 0 to |src|
      invariant dst[..at] == old(dst[..at]) && dst[at + i..] == old(dst[at + i..])
      invariant dst[at..at + i] == src[..i]
    {
      dst[at + i] := src[i];
    }
    assert dst[..] == dst[..at] + dst[at..at + |src|] + dst[at + |src|..];
  }

  /** Client/connectionHandler.cpp: `setReqHeaderBinaryData`. */
  method SetRequestHeader(h: Header, header: array<byte>)
    requires |h.clientID| == UID_SIZE && header.Length == REQUEST_HEADER_SIZE
    modifies header
    ensures header[..] == RequestHeader(h)
  {
    var offset := 0;
    Memcpy(header, 0, h.clientID);
    offset := offset + UID_SIZE;
    Memcpy(header, offset, LE(h.version, 1));
    offset := offset + 1;
    Memcpy(header, offset, LE(h.code, 2));
    offset := offset + 2;
    Memcpy(header, offset, LE(h.size, 4));
  }

  /** The payload of request 828: sizes, packet numbers, padded file name, encrypted content. */
  function FilePayload(origSize: nat, packet: nat, packets: nat, name: Bytes, content: Bytes): (b: Bytes)
    requires |name| == NAME_SIZE
    ensures |b| == CONTENT_INDEX + |content|
  {
    LE(|content|, 4) + LE(origSize, 4) + LE(packet, 2) + LE(packets, 2) + name + content
  }

  /** `memcpy` seen from the front: what was written before it stays before it. */
  method Append(dst: array<byte>, at: nat, src: Bytes)
    requires at + |src| <= dst.Length
    modifies dst
    ensures dst[..at + |src|] == old(dst[..at]) + src
  {
    Memcpy(dst, at, src);
  }

  /** Client/requestHandler.cpp: `setEncryptionPayload`, filling the buffer at moving offsets. */
  method SetEncryptionPayload(
    origSize: nat, packet: nat, packets: nat, name: Bytes, content: Bytes, payload: array<byte>)
    requires |name| == NAME_SIZE && payload.Length == CONTENT_INDEX + |content|
    modifies payload
    ensures payload[..] == FilePayload(origSize, packet, packets, name, content)
  {
    hide LE;
    var offset := 0;
    assert payload[..0] == [];
    Append(payload, 0, LE(|content|, 4));
    offset := offset + 4;
    Append(payload, offset, LE(origSize, 4));
    offset := offset + 4;
    Append(payload, offset, LE(packet, 2));
    offset := offset + 2;
    Append(payload, offset, LE(packets, 2));
    offset := offset + 2;
    Append(payload, offset, name);
    Append(payload, CONTENT_INDEX, content);
    assert payload[..] == payload[..CONTENT_INDEX + |content|];
  }

  /** The server finds each piece again at its fixed place. */
  lemma FilePayloadParts(origSize: nat, packet: nat, packets: nat, name: Bytes, content: Bytes)
    requires |name| == NAME_SIZE
    ensures var b := FilePayload(origSize, packet, packets, name, content);
      && Slice(b, NAME_INDEX, CONTENT_INDEX) == name
      && b[CONTENT_INDEX..] == content
      && b[..4] == LE(|content|, 4) && b[4..8] == LE(origSize, 4)
      && b[8..10] == LE(packet, 2) && b[10..12] == LE(packets, 2)
  {
    hide LE;
    var b := FilePayload(origSize, packet, packets, name, content);
    assert b[NAME_INDEX..CONTENT_INDEX] == name;
    assert b[CONTENT_INDEX..] == content;
    assert b[..4] == LE(|content|, 4);
    assert b[4..8] == LE(origSize, 4);
    assert b[8..10] == LE(packet, 2);
    assert b[10..12] == LE(packets, 2);
  }

  // ---- file names ---------------------------------------------------------------------------

  const PIPE: byte := 0x7c

  /** Client/transferInfo.cpp: `getFileName` pads with `|`; only 255 bytes are ever copied. */
  method GetFileName(name: Bytes) returns (padded: Bytes)
    ensures padded == PadName(name)
  {
    padded := name;
    while |padded| < NAME_SIZE
      invariant |name| <= |padded| && (|padded| <= NAME_SIZE || padded == name)
      invariant padded == name + Repeat(PIPE, |padded| - |name|)
    {
      padded := padded + [PIPE];
    }
  }

  function PadName(name: Bytes): (r: Bytes)
    ensures |r| >= NAME_SIZE && name <= r
    ensures forall i :: |name| <= i < |r| ==> r[i] == PIPE
  {
    if |name| >= NAME_SIZE then name else name + Repeat(PIPE, NAME_SIZE - |name|)
  }

  /** Server/requestHandler.py: `remove_pipe_padding` drops every `|`, wherever it stands. */
  function RemovePipes(s: Bytes): Bytes {
    if s == [] then [] else WithoutPipe(s[0]) + RemovePipes(s[1..])
  }

  function WithoutPipe(ch: byte): Bytes {
    if ch == PIPE then [] else [ch]
  }

  lemma {:induction false} RemovePipesAppend(a: Bytes, b: Bytes)
    ensures RemovePipes(a + b) == RemovePipes(a) + RemovePipes(b)
  {
    if a == [] {
      assert a + b == b;
    } else {
      hide WithoutPipe;
      assert (a + b)[1..] == a[1..] + b;
      RemovePipesAppend(a[1..], b);
    }
  }

  lemma {:induction false} RemovePipesOfPadding(n: nat)
    ensures RemovePipes(Repeat(PIPE, n)) == []
  {
    if n > 0 {
      assert Repeat(PIPE, n)[1..] == Repeat(PIPE, n - 1);
      RemovePipesOfPadding(n - 1);
    }
  }

  lemma {:induction false} RemovePipesShorter(s: Bytes)
    ensures |RemovePipes(s)| <= |s|
    ensures PIPE !in RemovePipes(s)
    ensures PIPE !in s <==> RemovePipes(s) == s
  {
    if s != [] {
      RemovePipesShorter(s[1..]);
      assert s == [s[0]] + s[1..];
    }
  }

  /** The server recovers the client's name exactly when it fits the field and has no `|`. */
  lemma NameRoundTrip(name: Bytes)
    ensures RemovePipes(PadName(name)[..NAME_SIZE]) == name <==> |name| <= NAME_SIZE && PIPE !in name
  {
    RemovePipesShorter(name);
    if |name| >= NAME_SIZE {
      RemovePipesShorter(name[..NAME_SIZE]);
      if |name| == NAME_SIZE {
        assert name[..NAME_SIZE] == name;
      }
    } else {
      RemovePipesAppend(name, Repeat(PIPE, NAME_SIZE - |name|));
      RemovePipesOfPadding(NAME_SIZE - |name|);
      assert PadName(name)[..NAME_SIZE] == PadName(name);
    }
  }
}
