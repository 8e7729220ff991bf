/**
 The data path from end to end: file, padding, CBC, payload, server, disk, checksum, answer, and
 the confirmation that follows.
 */
module EndToEnd {
  import opened Bytes
  import opened Cipher
  import opened Crc
  import opened CrcDetection
  import opened Database
  import opened Protocol
  import opened Server
  import opened ServerHistory
  import opened Isolation
  import opened ClientRequests
  import opened ClientModel
  import opened Exchange
  import opened ClientOperations
  import opened ClientLog
  import opened Delivery
  import opened Soundness
  import opened ClientRuns

  /** The server accepts the name field. */
  predicate NameAccepted(x: Setting) {
    x.crypto.validUtf8(NameField(x.cfg)) && StoredName(x.cfg) != []
  }

  /** It is the client's own name exactly when that fits the field and has no `|`. */
  lemma StoredNameIsOwn(cfg: Config)
    ensures StoredName(cfg) == cfg.fileName <==> |cfg.fileName| <= NAME_SIZE && PIPE !in cfg.fileName
  {
    NameRoundTrip(cfg.fileName);
  }

  /** The server decrypts what the client encrypted, and answers with the checksum of its file. */
  lemma FileArrives(x: Setting, st: Store, uid: Bytes, key: Bytes)
    requires x.Valid() && Sendable(|x.cfg.file|) && NameAccepted(x)
    requires uid in st.clients && st.clients[uid].aesKey == key && |key| == AES_KEY_SIZE
    ensures var payload := EncryptedPayload(x.crypto.aes, x.cfg, key);
      EncryptedFile(x.crypto, st, uid, payload) ==
        (SaveFile(st, uid, StoredName(x.cfg), x.cfg.file),
         CrcReply(uid, payload, StoredName(x.cfg), x.cfg.file))
  {
    hide Encrypt, Decrypt, NameField, LE, TotalPackets, FilePayload, RemovePipes, SaveFile, CrcReply, Slice;
    var content := Encrypt(x.crypto.aes, key, x.cfg.file);
    FilePayloadParts(|x.cfg.file|, 1, TotalPackets(|x.cfg.file|).value, NameField(x.cfg), content);
    DecryptIffEncrypt(x.crypto.aes, key, content, x.cfg.file);
    EncryptedPayloadSize(x.crypto.aes, x.cfg, key);
  }

  /** The client accepts the answer and finds its checksum valid. */
  lemma ReplyMatches(x: Setting, cs: ClientState, uid: Bytes, payload: Bytes, name: Bytes)
    ensures var reply := CrcReply(uid, payload, name, x.cfg.file);
      Process(x, cs, reply) == (cs.(crcValid := true), true) && reply.code == VALID_CRC_FILE
  {
    hide Memcrc, ServerCrc, ReceivedKey;
    CrcInReply(uid, payload, name, x.cfg.file);
  }

  /**
   Whatever the server stored, its answer sets the client's flag exactly when the checksums agree;
   for contents that differ by one burst of 32 bits, exactly when they are the same.
   */
  lemma FlagTellsCorruption(x: Setting, cs: ClientState, uid: Bytes, payload: Bytes, name: Bytes, data: Bytes)
    ensures var flag := Process(x, cs, CrcReply(uid, payload, name, data)).0.crcValid;
      && (flag <==> Memcrc(data) == Memcrc(x.cfg.file))
      && (forall p :: DifferByBurst(data, x.cfg.file, p) ==> (flag <==> data == x.cfg.file))
  {
    hide Memcrc, ServerCrc, ReceivedKey, DifferByBurst;
    CrcInReply(uid, payload, name, data);
    if Memcrc(data) as nat == Memcrc(x.cfg.file) as nat {
      CrcAsNumber(Memcrc(data), Memcrc(x.cfg.file));
    }
    forall p | DifferByBurst(data, x.cfg.file, p)
      ensures Memcrc(data) == Memcrc(x.cfg.file) <==> data == x.cfg.file
    {
      BurstDetected(data, x.cfg.file, p);
    }
  }

  /** The client can send the file, the server accepts its name, and nothing alters packet n. */
  ghost predicate Clean(x: Setting, n: nat) {
    Sendable(|x.cfg.file|) && NameAccepted(x) && forall b :: x.turns(n).noise(b) == b
  }

  /** Besides, both sides hold the same key when the packet is handled. */
  ghost predicate Undisturbed(x: Setting, w: World) {
    x.Valid() && Clean(x, |w.log|) && Agree(w.client, Meanwhile(x, w), w.client.clientID)
  }

  lemma OutgoingUpload(x: Setting, w: World)
    requires Undisturbed(x, w)
    ensures Build(x, w.client, SEND_FILE).Some?
    ensures Outgoing(x, w, SEND_FILE) ==
      Request(w.client.clientID, VERSION, SEND_FILE, EncryptedPayload(x.crypto.aes, x.cfg, w.client.key))
  {
    hide EncryptedPayload, NameAccepted, Agree;
    var payload := EncryptedPayload(x.crypto.aes, x.cfg, w.client.key);
    EncryptedPayloadSize(x.crypto.aes, x.cfg, w.client.key);
    assert payload[..CONTENT_INDEX] + payload[CONTENT_INDEX..] == payload;
  }

  /**
   One upload with agreeing keys: the server's store changes by exactly the client's file under
   its stored name and a row for it, the answer is a 1603, and the client finds its checksum valid.
   */
  lemma UploadArrives(x: Setting, w: World)
    requires Ready(x, w) && Undisturbed(x, w)
    ensures var r := Send(x, w, SEND_FILE);
      && r.status == Returned(true)
      && |r.w.log| == |w.log| + 1
      && r.w.client.crcValid && r.w.client.response.code == VALID_CRC_FILE
      && r.w.client.clientID == w.client.clientID
      && r.w.server == SaveFile(Meanwhile(x, w), w.client.clientID, StoredName(x.cfg), x.cfg.file)
  {
    hide *;
    ReadyValid(x, w);
    KnownCodes();
    OutgoingUpload(x, w);
    UploadHandled(x, w);
    ExchangeIsDirect(x, w, SEND_FILE);
    DirectUpload(x, w);
    SendIs(x, w, SEND_FILE);
  }

  lemma SendIs(x: Setting, w: World, code: nat)
    requires Ready(x, w) && Known(code)
    ensures Send(x, w, code) == SendAndReceive(x, w, code)
  {
  }

  lemma UploadHandled(x: Setting, w: World)
    requires x.Valid() && Undisturbed(x, w) && Build(x, w.client, SEND_FILE).Some?
    ensures var uid := w.client.clientID;
      Handle(x.crypto, Meanwhile(x, w), Outgoing(x, w, SEND_FILE), x.turns(|w.log|).draw) ==
        (SaveFile(Meanwhile(x, w), uid, StoredName(x.cfg), x.cfg.file),
         Some(CrcReply(uid, EncryptedPayload(x.crypto.aes, x.cfg, w.client.key), StoredName(x.cfg), x.cfg.file)))
  {
    hide EncryptedFile, EncryptedPayload, Meanwhile, SaveFile, CrcReply, NameAccepted, Build, Outgoing, Sendable;
    OutgoingUpload(x, w);
    FileArrives(x, Meanwhile(x, w), w.client.clientID, w.client.key);
  }

  lemma DirectUpload(x: Setting, w: World)
    requires x.Valid() && Undisturbed(x, w) && Build(x, w.client, SEND_FILE).Some?
    ensures var r := Direct(x, w, SEND_FILE);
      && r.status == Returned(true)
      && |r.w.log| == |w.log| + 1
      && r.w.client.crcValid && r.w.client.response.code == VALID_CRC_FILE
      && r.w.client.clientID == w.client.clientID
      && r.w.server == SaveFile(Meanwhile(x, w), w.client.clientID, StoredName(x.cfg), x.cfg.file)
  {
    hide Handle, EncryptedPayload, Meanwhile, SaveFile, CrcReply, NameAccepted, Build, Outgoing, Sendable, Process;
    UploadHandled(x, w);
    OutgoingUpload(x, w);
    var uid := w.client.clientID;
    var payload := EncryptedPayload(x.crypto.aes, x.cfg, w.client.key);
    var reply := CrcReply(uid, payload, StoredName(x.cfg), x.cfg.file);
    ReplyMatches(x, w.client.(clientID := uid, response := reply), uid, payload, StoredName(x.cfg));
  }

  // ---- the confirmation ----------------------------------------------------------------------------

  /** What the server holds of a client: its file, and its row. */
  ghost predicate Holds(x: Setting, st: Store, uid: Bytes) {
    && uid in st.clients
    && ReadFile(st, PathOf(st, uid), StoredName(x.cfg)) == Some(x.cfg.file)
    && RowOf(st, uid).Some?
  }

  lemma SavedIsHeld(x: Setting, st: Store, uid: Bytes)
    requires uid in st.clients
    ensures var st' := SaveFile(st, uid, StoredName(x.cfg), x.cfg.file);
      && Holds(x, st', uid)
      && RowOf(st', uid) == RowAfter(RowOf(st, uid), Save(StoredName(x.cfg)), PathOf(st, uid))
  {
    hide Stem, StoredName;
  }

  lemma ViewHolds(x: Setting, st: Store, st': Store, uid: Bytes)
    requires Holds(x, st, uid) && ViewOf(st', uid) == ViewOf(st, uid)
    ensures Holds(x, st', uid) && RowOf(st', uid) == RowOf(st, uid)
  {
    hide StoredName, PathOf, Dir;
  }

  /** The 900: the row is verified exactly when it has the file's name, or was verified before. */
  lemma Confirmed(x: Setting, st: Store, uid: Bytes)
    requires x.Valid() && NameAccepted(x) && Holds(x, st, uid)
    ensures var (st', a) := ValidOrAbort(x.crypto, st, uid, VALID_CRC, NameField(x.cfg));
      && a.code == MSG_RECEIVED
      && Holds(x, st', uid)
      && RowOf(st', uid) == RowAfter(RowOf(st, uid), Verify(StoredName(x.cfg)), [])
  {
    hide RemovePipes, Stem, NameField;
    assert NameField(x.cfg)[0..NAME_SIZE] == NameField(x.cfg);
  }

  lemma OutgoingConfirmation(x: Setting, w: World)
    requires x.Valid()
    ensures Build(x, w.client, VALID_CRC).Some?
    ensures Outgoing(x, w, VALID_CRC) == Request(w.client.clientID, VERSION, VALID_CRC, NameField(x.cfg))
  {
    hide NameField;
  }

  lemma ConfirmationHandled(x: Setting, w: World)
    requires x.Valid() && NameAccepted(x) && Holds(x, Meanwhile(x, w), w.client.clientID)
    requires Build(x, w.client, VALID_CRC).Some?
    ensures var (st', a) := Handle(x.crypto, Meanwhile(x, w), Outgoing(x, w, VALID_CRC), x.turns(|w.log|).draw);
      var uid := w.client.clientID;
      && a.Some? && a.value.code == MSG_RECEIVED
      && Holds(x, st', uid)
      && RowOf(st', uid) == RowAfter(RowOf(Meanwhile(x, w), uid), Verify(StoredName(x.cfg)), [])
  {
    hide ValidOrAbort, NameAccepted, Holds, Build, Outgoing, Meanwhile, StoredName, NameField;
    OutgoingConfirmation(x, w);
    Confirmed(x, Meanwhile(x, w), w.client.clientID);
  }

  lemma DirectConfirmation(x: Setting, w: World)
    requires x.Valid() && NameAccepted(x) && Holds(x, Meanwhile(x, w), w.client.clientID)
    requires Build(x, w.client, VALID_CRC).Some?
    ensures var r := Direct(x, w, VALID_CRC); var uid := w.client.clientID;
      && r.status == Returned(true) && |r.w.log| == |w.log| + 1
      && r.w.client.clientID == uid && r.w.client.crcValid == w.client.crcValid
      && r.w.client.response.code == MSG_RECEIVED
      && Holds(x, r.w.server, uid)
      && RowOf(r.w.server, uid) == RowAfter(RowOf(Meanwhile(x, w), uid), Verify(StoredName(x.cfg)), [])
  {
    hide Handle, NameAccepted, Holds, Build, Outgoing, Meanwhile, StoredName, ReceivedKey, Matches;
    ConfirmationHandled(x, w);
    OutgoingConfirmation(x, w);
  }

  lemma OthersHold(x: Setting, w: World, uid: Bytes)
    requires Ready(x, w) && Polite(x) && Alone(x, uid) && Inv(w.server) && Holds(x, w.server, uid)
    ensures Holds(x, Meanwhile(x, w), uid) && RowOf(Meanwhile(x, w), uid) == RowOf(w.server, uid)
  {
    hide Ready, Inv, Run, ViewOf, StoredName, TerminatesName;
    ReadyValid(x, w);
    ForeignRun(x.crypto, w.server, x.turns(|w.log|).others, uid);
    ViewHolds(x, w.server, Meanwhile(x, w), uid);
  }

  /** A 900 for a file the server holds. */
  lemma ConfirmationArrives(x: Setting, w: World)
    requires Ready(x, w) && Polite(x) && NameAccepted(x) && Inv(w.server)
    requires Alone(x, w.client.clientID) && Holds(x, w.server, w.client.clientID)
    ensures var r := Send(x, w, VALID_CRC); var uid := w.client.clientID;
      && r.status == Returned(true) && |r.w.log| == |w.log| + 1
      && r.w.client.clientID == uid && r.w.client.crcValid == w.client.crcValid
      && r.w.client.response.code == MSG_RECEIVED
      && Holds(x, r.w.server, uid)
      && RowOf(r.w.server, uid) == RowAfter(RowOf(w.server, uid), Verify(StoredName(x.cfg)), [])
  {
    hide *;
    KnownCodes();
    ReadyValid(x, w);
    OthersHold(x, w, w.client.clientID);
    OutgoingConfirmation(x, w);
    ExchangeIsDirect(x, w, VALID_CRC);
    DirectConfirmation(x, w);
    SendIs(x, w, VALID_CRC);
  }

  // ---- the whole operation --------------------------------------------------------------------------

  /** What an upload and its confirmation make of the client's row. */
  lemma RowOfUpload(row: Option<FileRow>, name: Bytes, path: Bytes)
    requires name != []
    ensures var row' := RowAfter(RowAfter(row, Save(name), path), Verify(name), []);
      && row'.Some?
      && (row'.value.fileName == name && row'.value.verified <==> row.None? || row.value.fileName == name)
  {
  }

  /** The upload and what others do before the confirmation. */
  lemma UploadHeld(x: Setting, from: Origin, w: World)
    requires Ready(x, w) && Undisturbed(x, w) && from.good && Sound(x, from, w) && Alone(x, w.client.clientID)
    ensures var r := Send(x, w, SEND_FILE); var uid := w.client.clientID;
      && Sound(x, from, r.w) && Inv(r.w.server)
      && Holds(x, r.w.server, uid)
      && RowOf(r.w.server, uid) ==
           RowAfter(RowOf(Meanwhile(x, w), uid), Save(StoredName(x.cfg)), PathOf(Meanwhile(x, w), uid))
  {
    hide Ready, Sound, Inv, Polite, Alone, Meanwhile, SaveFile, Holds, Clean, RowAfter, StoredName, ExchangeOk;
    UploadMaySend(x.cfg, w.log);
    SendSound(x, from, w, SEND_FILE);
    SoundInv(x, from, Send(x, w, SEND_FILE).w);
    UploadArrives(x, w);
    SavedIsHeld(x, Meanwhile(x, w), w.client.clientID);
  }

  lemma UploadMaySend(cfg: Config, log: Log)
    ensures MaySend(cfg, log, SEND_FILE)
  {
  }

  lemma SoundInv(x: Setting, from: Origin, w: World)
    requires from.good && Sound(x, from, w)
    ensures Inv(w.server) && Polite(x)
  {
    hide Inv, LogOk, Polite, FileGuarded;
  }

  /** 828 and 900, with nothing to resend in between. */
  lemma TwoPackets(x: Setting, w: World)
    requires Ready(x, w) && Continues(KeyPhase(x, w))
    requires var w1 := KeyPhase(x, w).w; var r := Send(x, w1, SEND_FILE); var r' := Send(x, r.w, VALID_CRC);
      && r.status == Returned(true) && r.w.client.response.code == VALID_CRC_FILE && r.w.client.crcValid
      && r'.status == Returned(true) && r'.w.client.response.code == MSG_RECEIVED
    ensures var w1 := KeyPhase(x, w).w;
      UploadFile(x, w) == Send(x, Send(x, w1, SEND_FILE).w, VALID_CRC).w
  {
    hide Ready, KeyPhase, Send, ErrorResend, ResendEncryptedMessage;
  }

  /** The client's latest key exchange, under its present uuid, was accepted. */
  predicate HasKey(w: World) {
    LastKey(w.log).Some? && KeyAccepted(LastKey(w.log).value, w.client.clientID)
  }

  lemma KeyStillAgrees(x: Setting, from: Origin, w: World)
    requires Ready(x, w) && Sound(x, from, w) && x.crypto.NeverWrong() && Alone(x, w.client.clientID) && HasKey(w)
    requires Clean(x, |w.log|)
    ensures Undisturbed(x, w) && NameAccepted(x) && StoredName(x.cfg) != []
  {
    hide Ready, Inv, Polite, Alone, LogOk, LastKey, KeyAccepted, Agree, Meanwhile, StoredName, Crypto.NeverWrong;
    ReadyValid(x, w);
    assert KeyGuarded(x, w, w.client.clientID);
    OthersKeepKey(x, w, w.client.clientID);
  }

  /**
   `uploadFile` from end to end.  Once the key phase is over and its key accepted, and if nothing
   alters the upload, two packets are enough: the server's disk holds exactly the client's file
   under its stored name, the client's checksum is valid, and the row is a verified one of that name
   exactly when the client had no row or one of that name before.
   */
  lemma UploadEndToEnd(x: Setting, from: Origin, w: World)
    requires Ready(x, w) && from.good && Sound(x, from, w) && x.crypto.NeverWrong() && Continues(KeyPhase(x, w))
    requires var w1 := KeyPhase(x, w).w; HasKey(w1) && Clean(x, |w1.log|) && Alone(x, w1.client.clientID)
    ensures var w1 := KeyPhase(x, w).w; var uid := w1.client.clientID; var name := StoredName(x.cfg);
      var w' := UploadFile(x, w); var row, row' := RowOf(Meanwhile(x, w1), uid), RowOf(w'.server, uid);
      && |w'.log| == |w1.log| + 2
      && w'.client.crcValid
      && ReadFile(w'.server, PathOf(w'.server, uid), name) == Some(x.cfg.file)
      && row'.Some?
      && (row'.value.fileName == name && row'.value.verified <==> row.None? || row.value.fileName == name)
  {
    hide *;
    KnownCodes();
    KeyPhaseFacts(x, from, w);
    var w1 := KeyPhase(x, w).w;
    KeyStillAgrees(x, from, w1);
    UploadArrives(x, w1);
    UploadHeld(x, from, w1);
    var r := Send(x, w1, SEND_FILE);
    SoundInv(x, from, r.w);
    ConfirmationArrives(x, r.w);
    TwoPackets(x, w);
    ReadyValid(x, w1);
    var st := Meanwhile(x, w1);
    RowOfUpload(RowOf(st, w1.client.clientID), StoredName(x.cfg), PathOf(st, w1.client.clientID));
    HeldFile(x, UploadFile(x, w).server, w1.client.clientID);
  }

  lemma HeldFile(x: Setting, st: Store, uid: Bytes)
    requires Holds(x, st, uid)
    ensures ReadFile(st, PathOf(st, uid), StoredName(x.cfg)) == Some(x.cfg.file)
  {
  }

  // ---- what uploads leave alone --------------------------------------------------------------------------

  /** The client's files are the same, and it stands where it stood. */
  predicate SameFiles(cs: ClientState, cs': ClientState) {
    cs'.keyFile == cs.keyFile && cs'.meInfo == cs.meInfo && cs'.registered == cs.registered && cs'.exited == cs.exited
  }

  lemma ProcessKeepsFiles(x: Setting, cs: ClientState, resp: Response)
    requires resp.code != REG_SUCCESSFUL
    ensures SameFiles(cs, Process(x, cs, resp).0)
  {
    hide ReceivedKey, Matches;
  }

  /** Only a registration writes the client's files. */
  lemma SendKeepsFiles(x: Setting, w: World, code: nat)
    requires Ready(x, w) && Known(code) && code != REGISTER
    ensures SameFiles(w.client, Send(x, w, code).w.client)
  {
    hide Ready, Handle, HandleRequest, Process, Meanwhile, Outgoing, Garble, Wire, Run, ExchangeOk, Receive;
    SentFiles(x, w, code);
    SendIs(x, w, code);
  }

  lemma SentFiles(x: Setting, w: World, code: nat)
    requires Ready(x, w) && Known(code) && code != REGISTER
    ensures SameFiles(w.client, SendAndReceive(x, w, code).w.client)
  {
    hide Handle, HandleRequest, Process, Garble, Wire, Run, Receive, Sized;
    if code != N_VALID_CRC && Build(x, w.client, code).Some? {
      ExchangeIsDirect(x, w, code);
      var req := Outgoing(x, w, code);
      AnswersAre(x.crypto, Meanwhile(x, w), req, x.turns(|w.log|).draw);
      var a := Handle(x.crypto, Meanwhile(x, w), req, x.turns(|w.log|).draw).1.value;
      ProcessKeepsFiles(x, w.client.(clientID := req.clientID, response := a), a);
    }
  }

  /** Nor does an upload or a confirmation change the client's row in `clients`. */
  lemma SendKeepsRow(x: Setting, w: World, code: nat, uid: Bytes)
    requires Ready(x, w) && (code == SEND_FILE || code == VALID_CRC)
    requires Alone(x, uid) && uid in w.server.clients
    ensures ClientOf(Send(x, w, code).w.server, uid) == ClientOf(w.server, uid)
  {
    hide Ready, Handle, Process, Outgoing, Run, ExchangeOk, Build;
    ReadyValid(x, w);
    SendIs(x, w, code);
    if Build(x, w.client, code).Some? {
      ForeignRowRun(x.crypto, w.server, x.turns(|w.log|).others, uid);
      OutgoingCode(x, w, code);
      KeysStay(x.crypto, Meanwhile(x, w), Outgoing(x, w, code), x.turns(|w.log|).draw, uid);
      ExchangeIsDirect(x, w, code);
    } else {
      NothingBuilt(x, w, code);
    }
  }

  lemma OutgoingCode(x: Setting, w: World, code: nat)
    requires x.Valid() && Build(x, w.client, code).Some?
    ensures Outgoing(x, w, code).code == code
  {
  }

  lemma NothingBuilt(x: Setting, w: World, code: nat)
    requires Ready(x, w) && Known(code) && Build(x, w.client, code).None?
    ensures SendAndReceive(x, w, code) == Result(w, Threw)
  {
  }

  lemma SameFilesTrans(a: ClientState, b: ClientState, c: ClientState)
    requires SameFiles(a, b) && SameFiles(b, c)
    ensures SameFiles(a, c)
  {
  }

  lemma KeyHasClient(x: Setting, from: Origin, w: World)
    requires Ready(x, w) && Sound(x, from, w) && x.crypto.NeverWrong() && Alone(x, w.client.clientID) && HasKey(w)
    ensures w.client.clientID in w.server.clients
  {
    hide Ready, Inv, Polite, Alone, LogOk, LastKey, KeyAccepted, Crypto.NeverWrong;
    assert KeyGuarded(x, w, w.client.clientID);
  }

  lemma SentRow(x: Setting, w: World, code: nat, uid: Bytes)
    requires Ready(x, w) && (code == SEND_FILE || code == VALID_CRC)
    requires Alone(x, uid) && uid in w.server.clients
    ensures uid in Send(x, w, code).w.server.clients
    ensures Send(x, w, code).w.server.clients[uid] == w.server.clients[uid]
  {
    hide Ready, Send;
    SendKeepsRow(x, w, code, uid);
  }

  /** An upload that goes through leaves the client's files, its standing and its row in `clients`. */
  lemma UploadKeepsClient(x: Setting, from: Origin, w: World)
    requires Ready(x, w) && from.good && Sound(x, from, w) && x.crypto.NeverWrong() && Continues(KeyPhase(x, w))
    requires var w1 := KeyPhase(x, w).w; HasKey(w1) && Clean(x, |w1.log|) && Alone(x, w1.client.clientID)
    ensures var w1 := KeyPhase(x, w).w; var uid := w1.client.clientID; var w' := UploadFile(x, w);
      && SameFiles(w1.client, w'.client)
      && uid in w1.server.clients && uid in w'.server.clients
      && w'.server.clients[uid] == w1.server.clients[uid]
  {
    hide *;
    KnownCodes();
    KeyPhaseFacts(x, from, w);
    var w1 := KeyPhase(x, w).w;
    var uid := w1.client.clientID;
    KeyStillAgrees(x, from, w1);
    KeyHasClient(x, from, w1);
    UploadArrives(x, w1);
    UploadHeld(x, from, w1);
    var w2 := Send(x, w1, SEND_FILE).w;
    SoundInv(x, from, w2);
    ConfirmationArrives(x, w2);
    TwoPackets(x, w);
    SendKeepsFiles(x, w1, SEND_FILE);
    SendKeepsFiles(x, w2, VALID_CRC);
    SameFilesTrans(w1.client, w2.client, UploadFile(x, w).client);
    SentRow(x, w1, SEND_FILE, uid);
    SentRow(x, w2, VALID_CRC, uid);
  }

  // ---- a client that has just registered --------------------------------------------------------------

  /** The last packet was an 826 whose key the client accepted. */
  ghost predicate KeyIsLast(w: World) {
    w.log != [] && w.log[|w.log| - 1].code == S_PUBLIC_KEY && KeyAccepted(w.log[|w.log| - 1], w.client.clientID)
  }

  lemma KeyOfExchange(x: Setting, w: World, r: Result)
    requires ExchangeOk(x, w, S_PUBLIC_KEY, r) && r.status.Returned? && r.w.client.response.code != GENERAL_ERROR
    ensures KeyIsLast(r.w)
  {
    hide FlagAfter;
  }

  lemma KeyIsLastHasKey(w: World)
    requires KeyIsLast(w)
    ensures HasKey(w)
  {
  }

  /** A key phase that is not skipped leaves the client with an accepted key of its present uuid. */
  lemma KeyPhaseHasKey(x: Setting, w: World)
    requires Ready(x, w) && !w.client.registered && Continues(KeyPhase(x, w))
    ensures HasKey(KeyPhase(x, w).w)
  {
    hide Ready, Send, KeyIsLast, HasKey, ExchangeOk;
    var r1 := Send(x, w, S_PUBLIC_KEY);
    var r2 := Send(x, r1.w, S_PUBLIC_KEY);
    var r3 := Send(x, r2.w, S_PUBLIC_KEY);
    if r1.w.client.response.code != GENERAL_ERROR {
      KeyOfExchange(x, w, r1);
    } else {
      KeyOfExchange(x, r2.w, r3);
    }
    KeyIsLastHasKey(KeyPhase(x, w).w);
  }
}
