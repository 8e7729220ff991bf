/**
 Client/Client.cpp as functions: one exchange with the server, the two kinds of resending, and the
 three public operations.  The client runs against the server's handlers on a store it shares with
 other clients, over a link that may alter the encrypted content of an upload.
 */
module ClientModel {
  import opened Bytes
  import opened Crc
  import opened Database
  import opened Protocol
  import opened Transport
  import opened Server
  import opened ServerHistory
  import opened Lockstep
  import opened ClientRequests

  /** The client's own variables and files. `meInfo` is the pair (user name, uuid) of me.info. */
  datatype ClientState = ClientState(
    clientID: Bytes,
    registered: bool,
    crcValid: bool,
    key: Bytes,
    response: Response,
    keyFile: Option<Bytes>,
    meInfo: Option<(Bytes, Bytes)>,
    exited: bool)

  /** One packet sent, as the client saw it: the answer, and the flag after processing it. */
  datatype Entry = Entry(code: nat, uid: Bytes, answer: Option<Response>, accepted: bool, crcValid: bool)

  /** What the surroundings do around packet number n: others' requests, draws, noise. */
  datatype Turn = Turn(others: seq<Event>, draw: Draw, noise: Bytes -> Bytes)

  /** Client, shared store, requests sent but not yet read by the server, and the log. */
  datatype World = World(
    client: ClientState,
    server: Store,
    sent: seq<Request>,
    open: bool,
    log: seq<Entry>)

  datatype Setting = Setting(crypto: Crypto, cfg: Config, turns: nat -> Turn) {
    ghost predicate Valid() {
      crypto.Valid() && cfg.Valid()
    }

    /** Every draw has the length the library gives it, and an encrypted key fits a packet. */
    ghost predicate Sane() {
      && (forall n :: |turns(n).draw.uuid| == UID_SIZE && |turns(n).draw.aesKey| == AES_KEY_SIZE)
      && (forall n, e :: e in turns(n).others ==> |e.draw.uuid| == UID_SIZE)
      && crypto.FitsPackets()
    }
  }

  // ---- building a request ---------------------------------------------------------------------

  /** `requestSelector`: the client id the packet goes out with, and its payload. */
  function Build(x: Setting, cs: ClientState, code: nat): Option<(Bytes, Bytes)>
    requires x.Valid()
  {
    if code == REGISTER then Some((IGNORED_ID, Terminate(x.cfg.userName)))
    else if code == S_PUBLIC_KEY then
      Some((cs.clientID, Terminate(x.cfg.userName) + x.cfg.publicKey))
    else if code == SEND_FILE then
      if Sendable(|x.cfg.file|) then Some((cs.clientID, EncryptedPayload(x.crypto.aes, x.cfg, cs.key)))
      else None
    else if code == RECONNECT then
      match cs.meInfo
      case None => None
      case Some((name, uuid)) =>
        if name == [] || |name| > NAME_SIZE || |uuid| != UID_SIZE then None
        else Some((uuid, Terminate(name)))
    else if code in {VALID_CRC, N_VALID_CRC, EXIT_CRC} then Some((cs.clientID, NameField(x.cfg)))
    else None
  }

  /**
   What every packet but an 828 carries, and under which uuid: an 825 the name and a NUL, an 826 the public
   key after them, an 827 the name and the uuid of me.info, and a 900, 901 or 902 the name of the file, up to
   255 bytes of it, with pipes after it.  Only an 827 can fail, by what is in me.info.
   */
  lemma RequestContents(x: Setting, cs: ClientState, code: nat)
    requires x.Valid() && Known(code) && code != SEND_FILE
    ensures Build(x, cs, code).None? <==>
      code == RECONNECT &&
      (cs.meInfo.None? || |cs.meInfo.value.0| == 0 || |cs.meInfo.value.0| > 255 || |cs.meInfo.value.1| != 16)
    ensures Build(x, cs, code).Some? ==>
      var (id, p) := Build(x, cs, code).value;
      && (code == REGISTER ==>
            && p == x.cfg.userName + [0]
            && |id| == 16 && id[15] == 0 && forall i :: 0 <= i < 15 ==> id[i] as int == "ignoreignoreign"[i] as int)
      && (code == S_PUBLIC_KEY ==> p == x.cfg.userName + [0] + x.cfg.publicKey && id == cs.clientID)
      && (code == RECONNECT ==> cs.meInfo.Some? && p == cs.meInfo.value.0 + [0] && id == cs.meInfo.value.1)
      && (code in {VALID_CRC, N_VALID_CRC, EXIT_CRC} ==>
            && id == cs.clientID && |p| == 255
            && forall i :: 0 <= i < 255 ==> p[i] == if i < |x.cfg.fileName| then x.cfg.fileName[i] else 0x7c)
  {
    hide EncryptedPayload, Sendable;
  }

  /** The link hands over the content of an 828 changed, but not its length. */
  function Garble(code: nat, payload: Bytes, noise: Bytes -> Bytes): Bytes {
    if code == SEND_FILE && |payload| >= CONTENT_INDEX && |noise(payload)| == |payload| then
      payload[..CONTENT_INDEX] + noise(payload)[CONTENT_INDEX..]
    else payload
  }

  /** And it may make anything of that length out of it. */
  lemma LinkIsFree(payload: Bytes, arrived: Bytes) returns (noise: Bytes -> Bytes)
    requires |arrived| == |payload| >= CONTENT_INDEX && arrived[..CONTENT_INDEX] == payload[..CONTENT_INDEX]
    ensures Garble(SEND_FILE, payload, noise) == arrived
  {
    noise := _ => arrived;
    assert arrived == arrived[..CONTENT_INDEX] + arrived[CONTENT_INDEX..];
  }

  // ---- processing a response ------------------------------------------------------------------

  /** The number a 1603 ends in. */
  function ServerCrc(payload: Bytes): nat {
    if |payload| < 4 then 0 else FromLE(payload[|payload| - 4..])
  }

  /** The response reports the checksum of the client's own file. */
  predicate Matches(cfg: Config, resp: Response) {
    resp.code == VALID_CRC_FILE && ServerCrc(resp.payload) == Memcrc(cfg.file) as nat
  }

  /** `recieveAesKey` and `decryptAESKey`: the private key comes from key.priv. */
  function ReceivedKey(c: Crypto, cs: ClientState, payload: Bytes): Option<Bytes> {
    if |payload| <= UID_SIZE || cs.keyFile.None? then None
    else match c.oaepDecrypt(cs.keyFile.value, payload[UID_SIZE..])
      case None => None
      case Some(key) => if |key| == AES_KEY_SIZE then Some(key) else None
  }

  /** `responseSelector`: the new state, and whether the client accepted the response. */
  function Process(x: Setting, cs: ClientState, resp: Response): (ClientState, bool) {
    if resp.code in {GENERAL_ERROR, REG_FAILED, RECONNECT_FAILED, MSG_RECEIVED} then (cs, true)
    else if resp.code == REG_SUCCESSFUL then
      if cs.keyFile.Some? then (cs, false)
      else if cs.meInfo.Some? then (cs.(keyFile := Some(x.cfg.privateKey)), false)
      else (cs.(keyFile := Some(x.cfg.privateKey), meInfo := Some((x.cfg.userName, resp.payload))), true)
    else if resp.code in {IN_PUBLIC_OUT_AES, OK_RECONNECT} then
      (match ReceivedKey(x.crypto, cs, resp.payload)
       case None => (cs, false)
       case Some(key) => (cs.(key := key), true))
    else if resp.code == VALID_CRC_FILE then (cs.(crcValid := Matches(x.cfg, resp)), true)
    else (cs, false)
  }

  // ---- one exchange ---------------------------------------------------------------------------

  /** How a client operation ends: an exception, or a value. */
  datatype Status = Threw | Returned(value: bool)

  datatype Result = Result(w: World, status: Status)

  /** The bytes of these requests on an otherwise empty stream. */
  ghost function Wire(reqs: seq<Request>): Stream
    requires forall r :: r in reqs ==> r.Fits()
  {
    Stream(EncodeAll(reqs), [], [])
  }

  ghost predicate WellFormed(x: Setting, w: World) {
    && |w.client.clientID| == UID_SIZE
    && (forall r :: r in w.sent ==> r.Fits() && Silent(r))
    && Sized(w.server)
  }

  /** Registered uuids have 16 bytes. */
  ghost predicate Sized(st: Store) {
    forall u :: u in st.clients ==> |u| == UID_SIZE
  }

  lemma BuildFits(x: Setting, w: World, code: nat, noise: Bytes -> Bytes)
    requires x.Valid() && WellFormed(x, w) && Build(x, w.client, code).Some? && code < UINT16_LIMIT
    ensures var (id, payload) := Build(x, w.client, code).value;
      Request(id, VERSION, code, Garble(code, payload, noise)).Fits()
  {
    hide EncryptedPayload, NameField;
    if code == SEND_FILE {
      EncryptedPayloadSize(x.crypto.aes, x.cfg, w.client.key);
    }
  }

  /** What the client does with the bytes of the answer it reads. */
  function Receive(x: Setting, cs: ClientState, bytes: Bytes): Option<(Response, ClientState, bool)> {
    match ParseResponse(bytes)
    case None => None
    case Some((resp, _)) =>
      var (cs', ok) := Process(x, cs.(response := resp), resp);
      Some((resp, cs', ok))
  }

  /**
   `sendAndRecieve`: build, send, and, unless the request was a 901, read and process the answer.
   Before the server gets to it, other clients' requests may have been handled.
   */
  ghost function SendAndReceive(x: Setting, w: World, code: nat): Result
    requires x.Valid() && WellFormed(x, w) && code < UINT16_LIMIT
  {
    match Build(x, w.client, code)
    case None => Result(w, Threw)
    case Some((id, payload)) =>
      var turn := x.turns(|w.log|);
      BuildFits(x, w, code, turn.noise);
      var req := Request(id, VERSION, code, Garble(code, payload, turn.noise));
      var cs := w.client.(clientID := id);
      var st := Run(x.crypto, w.server, turn.others);
      var sent := w.sent + [req];
      if code == N_VALID_CRC then
        Result(World(cs, st, sent, w.open, w.log + [Entry(code, id, None, true, cs.crcValid)]),
               Returned(true))
      else if !w.open then
        Result(World(cs, st, sent, w.open, w.log + [Entry(code, id, None, false, cs.crcValid)]), Threw)
      else
        var o := HandleRequest(x.crypto, st, Wire(sent), turn.draw);
        match o.answer
        case None =>
          Result(World(cs, o.st, [], false, w.log + [Entry(code, id, None, false, cs.crcValid)]), Threw)
        case Some(answer) =>
          match Receive(x, cs, EncodeResponse(answer))
          case None =>
            Result(World(cs, o.st, [], true, w.log + [Entry(code, id, None, false, cs.crcValid)]), Threw)
          case Some((resp, cs', ok)) =>
            Result(World(cs', o.st, [], true, w.log + [Entry(code, id, Some(resp), ok, cs'.crcValid)]),
                   if ok then Returned(true) else Threw)
  }
}
