/**
 Server/requestHandler.py as functions: what each request does to the store and what is answered.
 An exception inside a handler becomes the answer its `except` clause sends; `None` is the empty
 answer after which the session closes.
 */
module Server {
  import opened Bytes
  import opened Cipher
  import opened Crc
  import opened Database
  import opened Protocol
  import opened Transport

  /** The cryptographic library, and UTF-8 validity.  OAEP takes its random seed explicitly. */
  datatype Crypto = Crypto(
    aes: BlockCipher,
    importKey: Bytes -> Option<Bytes>,
    oaepEncrypt: (Bytes, Bytes, Bytes) -> Option<Bytes>,
    oaepDecrypt: (Bytes, Bytes) -> Option<Bytes>,
    validUtf8: Bytes -> bool)
  {
    ghost predicate Valid() {
      aes.Valid()
    }

    /** What OAEP returns is far shorter than a packet can be. */
    ghost predicate FitsPackets() {
      forall p: Bytes, s: Bytes, m: Bytes :: oaepEncrypt(p, s, m).Some? ==>
        |oaepEncrypt(p, s, m).value| < UINT16_LIMIT
    }

    /** OAEP decryption gives the message that was encrypted, or, under any other key, nothing. */
    ghost predicate NeverWrong() {
      forall rsa: Bytes, seed: Bytes, m: Bytes, priv: Bytes :: oaepEncrypt(rsa, seed, m).Some? ==>
        oaepDecrypt(priv, oaepEncrypt(rsa, seed, m).value) in {None, Some(m)}
    }
  }

  /** What one request may draw at random: a uuid, an AES key, an OAEP seed. */
  datatype Draw = Draw(uuid: Bytes, aesKey: Bytes, seed: Bytes)

  const ERROR: Response := Response(VERSION, GENERAL_ERROR, [])

  function Reply(code: nat, payload: Bytes): Response {
    Response(VERSION, code, payload)
  }

  predicate IsAscii(s: Bytes) {
    forall i :: 0 <= i < |s| ==> s[i] < 0x80
  }

  // ---- 825: registration -------------------------------------------------------------------

  ghost function Register(st: Store, payload: Bytes, draw: Draw): (Store, Response) {
    if !IsAscii(payload) then (st, ERROR)
    else match UuidOf(st, payload)
      case Some(u) => (st, Reply(REG_FAILED, u))
      case None =>
        match InsertClient(st, draw.uuid, payload)
        case None => (st, ERROR)
        case Some(st') => (st', Reply(REG_SUCCESSFUL, draw.uuid))
  }

  // ---- 826 and 827: keys -------------------------------------------------------------------

  /** Server/CryptoHandler.py: `generate_aes_key`; the key is stored before it is encrypted. */
  function GenerateAesKey(c: Crypto, st: Store, uid: Bytes, draw: Draw): (Store, Option<Bytes>) {
    match ClientOf(st, uid)
    case None => (st, None)
    case Some(row) =>
      if row.publicKey == PUBLIC_KEY_PLACEHOLDER then (st, None)
      else match c.importKey(row.publicKey)
        case None => (st, None)
        case Some(rsa) =>
          (SetAesKey(st, uid, draw.aesKey), c.oaepEncrypt(rsa, draw.seed, draw.aesKey))
  }

  function PublicKey(c: Crypto, st: Store, uid: Bytes, payload: Bytes, draw: Draw): (Store, Response) {
    if |payload| <= PUBLIC_KEY_SIZE then (st, ERROR)
    else
      var st1 := SetPublicKey(st, uid, payload[|payload| - PUBLIC_KEY_SIZE..]);
      match GenerateAesKey(c, st1, uid, draw)
      case (st2, None) => (st2, ERROR)
      case (st2, Some(key)) => (st2, Reply(IN_PUBLIC_OUT_AES, uid + key))
  }

  function SignIn(c: Crypto, st: Store, uid: Bytes, draw: Draw): (Store, Response) {
    match GenerateAesKey(c, st, uid, draw)
    case (st1, None) => (st1, Reply(RECONNECT_FAILED, uid))
    case (st1, Some(key)) => (st1, Reply(OK_RECONNECT, uid + key))
  }

  // ---- 828: the file -----------------------------------------------------------------------

  /** The name field of a payload, decoded and without pipes. */
  function NameIn(c: Crypto, payload: Bytes, start: nat, end: nat): Option<Bytes>
    requires start <= end
  {
    var field := Slice(payload, start, end);
    if c.validUtf8(field) then Some(RemovePipes(field)) else None
  }

  /** The file content of a payload under the client's key. */
  function Content(c: Crypto, key: Bytes, payload: Bytes): Option<Bytes>
    requires c.Valid()
  {
    Decrypt(c.aes, key, if |payload| <= CONTENT_INDEX then [] else payload[CONTENT_INDEX..])
  }

  function CrcReply(uid: Bytes, payload: Bytes, name: Bytes, data: Bytes): Response {
    Reply(VALID_CRC_FILE, uid + Slice(payload, 0, 4) + name + LE(Memcrc(data) as nat, 4))
  }

  /** The backed-up file comes first, then its row, unless the client has a row already. */
  function SaveFile(st: Store, uid: Bytes, name: Bytes, data: Bytes): Store
    requires uid in st.clients
  {
    var stem := Stem(st.clients[uid].userName);
    InsertFile(WriteFile(st, stem, name, data), uid, name, stem)
  }

  function EncryptedFile(c: Crypto, st: Store, uid: Bytes, payload: Bytes): (Store, Response)
    requires c.Valid()
  {
    match NameIn(c, payload, NAME_INDEX, CONTENT_INDEX)
    case None => (st, ERROR)
    case Some(name) =>
      if uid !in st.clients then (st, ERROR)
      else match Content(c, st.clients[uid].aesKey, payload)
        case None => (st, ERROR)
        case Some(data) =>
          if name == [] then (st, ERROR)
          else (SaveFile(st, uid, name, data), CrcReply(uid, payload, name, data))
  }

  // ---- 900 and 902 -------------------------------------------------------------------------

  function DeleteFromBackup(st: Store, uid: Bytes, name: Bytes): Store {
    if uid in st.clients then RemoveFile(st, Stem(st.clients[uid].userName), name) else st
  }

  function ValidOrAbort(c: Crypto, st: Store, uid: Bytes, code: nat, payload: Bytes): (Store, Response) {
    match NameIn(c, payload, 0, NAME_SIZE)
    case None => (st, ERROR)
    case Some(name) =>
      (if code == VALID_CRC then SetVerified(st, uid, name)
       else DeleteUnverified(DeleteFromBackup(st, uid, name), uid, name),
       Reply(MSG_RECEIVED, uid))
  }

  // ---- selection ---------------------------------------------------------------------------

  /** `req_select` for every code but 901, which reads another request. */
  ghost function Handle(c: Crypto, st: Store, r: Request, draw: Draw): (Store, Option<Response>)
    requires c.Valid()
  {
    if r.version != VERSION then (st, Some(ERROR))
    else if r.code == REGISTER then
      var (st', resp) := Register(st, r.payload, draw); (st', Some(resp))
    else if r.code == S_PUBLIC_KEY then
      var (st', resp) := PublicKey(c, st, r.clientID, r.payload, draw); (st', Some(resp))
    else if r.code == RECONNECT then
      var (st', resp) := SignIn(c, st, r.clientID, draw); (st', Some(resp))
    else if r.code == SEND_FILE then
      var (st', resp) := EncryptedFile(c, st, r.clientID, r.payload); (st', Some(resp))
    else if r.code == VALID_CRC || r.code == EXIT_CRC then
      var (st', resp) := ValidOrAbort(c, st, r.clientID, r.code, r.payload); (st', Some(resp))
    else (st, None)
  }

  /** What one call of `handle_request` leaves: store, stream, and the answer if there is one. */
  datatype Outcome = Outcome(st: Store, stream: Stream, answer: Option<Response>)

  /**
   `handle_request`: header, payload, selection.  Request 901 has no answer of its own; the call
   goes on with the next request and returns that one's answer.
   */
  ghost function HandleRequest(c: Crypto, st: Store, s: Stream, draw: Draw): (o: Outcome)
    requires c.Valid()
    ensures o.answer.Some? ==> |o.stream.pending| + REQUEST_HEADER_SIZE <= |s.pending|
    decreases |s.pending|
  {
    var (data, s1) := Recv(s, REQUEST_HEADER_SIZE);
    if |data| != REQUEST_HEADER_SIZE then Outcome(st, s1, None)
    else
      var h := ParseRequestHeader(data);
      var (payload, s2) := RecvPayload(s1, h.size);
      RecvPayloadPrefix(s1, h.size);
      assert |data + s1.pending| == |s.pending| && |payload + s2.pending| == |s1.pending|;
      if h.version == VERSION && h.code == N_VALID_CRC then HandleRequest(c, st, s2, draw)
      else
        var (st', answer) := Handle(c, st, Request(h.clientID, h.version, h.code, payload), draw);
        Outcome(st', s2, answer)
  }

  /** `handle_client`: answer after answer until one is empty.  Call number i draws `draws(i)`. */
  ghost function Session(c: Crypto, st: Store, s: Stream, draws: nat -> Draw, i: nat): (Store, seq<Response>)
    requires c.Valid()
    decreases |s.pending|
  {
    var o := HandleRequest(c, st, s, draws(i));
    match o.answer
    case None => (o.st, [])
    case Some(resp) =>
      var (st', rest) := Session(c, o.st, o.stream, draws, i + 1);
      (st', [resp] + rest)
  }
}
