/**
 What holds between one client and the server through every exchange, whatever other clients do
 in between: a validated upload is on the server's disk, and both sides hold the same key.
 */
module Delivery {
  import opened Bytes
  import opened Cipher
  import opened Crc
  import opened Database
  import opened Protocol
  import opened Server
  import opened ServerHistory
  import opened Isolation
  import opened ClientRequests
  import opened ClientModel
  import opened Exchange

  // ---- requests of others ----------------------------------------------------------------------

  lemma ForeignRegister(st: Store, payload: Bytes, draw: Draw, uid: Bytes)
    requires uid in st.clients
    ensures ViewOf(Register(st, payload, draw).0, uid) == ViewOf(st, uid)
  {
    hide IsAscii, Stem;
  }

  lemma ForeignGenerate(c: Crypto, st: Store, v: Bytes, draw: Draw, uid: Bytes)
    requires uid in st.clients && v != uid
    ensures uid in GenerateAesKey(c, st, v, draw).0.clients
    ensures ViewOf(GenerateAesKey(c, st, v, draw).0, uid) == ViewOf(st, uid)
  {
    hide Stem;
  }

  lemma ForeignKeys(c: Crypto, st: Store, v: Bytes, payload: Bytes, draw: Draw, uid: Bytes)
    requires uid in st.clients && v != uid
    ensures ViewOf(PublicKey(c, st, v, payload, draw).0, uid) == ViewOf(st, uid)
    ensures ViewOf(SignIn(c, st, v, draw).0, uid) == ViewOf(st, uid)
  {
    hide GenerateAesKey, Stem;
    ForeignGenerate(c, st, v, draw, uid);
    if |payload| > PUBLIC_KEY_SIZE {
      ForeignGenerate(c, SetPublicKey(st, v, payload[|payload| - PUBLIC_KEY_SIZE..]), v, draw, uid);
    }
  }

  lemma ForeignSave(c: Crypto, st: Store, v: Bytes, payload: Bytes, uid: Bytes)
    requires c.Valid() && uid in st.clients && v != uid
    requires v in st.clients ==> PathOf(st, v) != PathOf(st, uid)
    ensures ViewOf(EncryptedFile(c, st, v, payload).0, uid) == ViewOf(st, uid)
  {
    hide Content, NameIn, CrcReply, Stem;
  }

  lemma ForeignEnd(c: Crypto, st: Store, v: Bytes, code: nat, payload: Bytes, uid: Bytes)
    requires uid in st.clients && v != uid
    requires v in st.clients ==> PathOf(st, v) != PathOf(st, uid)
    ensures ViewOf(ValidOrAbort(c, st, v, code, payload).0, uid) == ViewOf(st, uid)
  {
    hide NameIn, Stem;
  }

  /** No request of another client touches a registered client's rows or directory. */
  lemma ForeignStep(c: Crypto, st: Store, e: Event, uid: Bytes)
    requires c.Valid() && Inv(st) && uid in st.clients && e.request.clientID != uid
    ensures ViewOf(Handle(c, st, e.request, e.draw).0, uid) == ViewOf(st, uid)
  {
    hide Register, PublicKey, SignIn, EncryptedFile, ValidOrAbort, ViewOf, PathOf, RowOk, UniqueNames, TerminatedNames;
    var r := e.request;
    if r.clientID in st.clients {
      StemsDiffer(st, uid, r.clientID);
    }
    ForeignRegister(st, r.payload, e.draw, uid);
    ForeignKeys(c, st, r.clientID, r.payload, e.draw, uid);
    ForeignSave(c, st, r.clientID, r.payload, uid);
    ForeignEnd(c, st, r.clientID, r.code, r.payload, uid);
  }

  lemma ViewHasClient(st: Store, st': Store, uid: Bytes)
    requires uid in st.clients && ViewOf(st', uid) == ViewOf(st, uid)
    ensures uid in st'.clients
  {
    hide PathOf, Dir;
  }

  lemma {:induction false} ForeignRun(c: Crypto, st: Store, run: seq<Event>, uid: Bytes)
    requires c.Valid() && Inv(st) && uid in st.clients
    requires forall e :: e in run ==> e.request.clientID != uid && TerminatesName(e.request)
    ensures ViewOf(Run(c, st, run), uid) == ViewOf(st, uid)
    decreases run
  {
    hide Inv, Handle, ViewOf, TerminatesName;
    if run != [] {
      assert run[0] in run;
      ForeignStep(c, st, run[0], uid);
      InvStep(c, st, run[0]);
      var st1 := Handle(c, st, run[0].request, run[0].draw).0;
      ViewHasClient(st, st1, uid);
      ForeignRun(c, st1, run[1..], uid);
    }
  }

  /** Not even that: in any store, only the client's own requests change its row in `clients`. */
  lemma ForeignRow(c: Crypto, st: Store, e: Event, uid: Bytes)
    requires c.Valid() && uid in st.clients && e.request.clientID != uid
    ensures ClientOf(Handle(c, st, e.request, e.draw).0, uid) == ClientOf(st, uid)
  {
    hide Register, PublicKey, SignIn, EncryptedFile, ValidOrAbort;
    var r := e.request;
    ForeignRegister(st, r.payload, e.draw, uid);
    ForeignKeys(c, st, r.clientID, r.payload, e.draw, uid);
    FilesKeepClients(c, st, r.clientID, r.code, r.payload);
  }

  lemma {:induction false} ForeignRowRun(c: Crypto, st: Store, run: seq<Event>, uid: Bytes)
    requires c.Valid() && uid in st.clients
    requires forall e :: e in run ==> e.request.clientID != uid
    ensures ClientOf(Run(c, st, run), uid) == ClientOf(st, uid)
    decreases run
  {
    hide Handle;
    if run != [] {
      assert run[0] in run;
      ForeignRow(c, st, run[0], uid);
      ForeignRowRun(c, Handle(c, st, run[0].request, run[0].draw).0, run[1..], uid);
    }
  }

  // ---- the file on disk --------------------------------------------------------------------------

  /** The client's directory holds, under the client's file name, a file with its file's checksum. */
  ghost predicate OnDisk(cfg: Config, st: Store, uid: Bytes) {
    && uid in st.clients
    && var d := Dir(st, PathOf(st, uid));
      var name := StoredName(cfg);
      name in d && Memcrc(d[name]) == Memcrc(cfg.file)
  }

  lemma NumberAsCrc(a: bv32)
    ensures (a as nat) as bv32 == a
  {
  }

  lemma CrcAsNumber(a: bv32, b: bv32)
    requires a as nat == b as nat
    ensures a == b
  {
    NumberAsCrc(a);
    NumberAsCrc(b);
  }

  /** The parts of a 1603: owner, size, name, and at the end, however long the name, the checksum. */
  lemma CrcInReply(uid: Bytes, payload: Bytes, name: Bytes, data: Bytes)
    ensures var p := CrcReply(uid, payload, name, data).payload;
      && ServerCrc(p) == Memcrc(data) as nat
      && (|uid| == UID_SIZE && |payload| >= 4 ==>
            && |p| == UID_SIZE + 4 + |name| + 4
            && p[..UID_SIZE] == uid && p[UID_SIZE..UID_SIZE + 4] == payload[..4]
            && p[UID_SIZE + 4..|p| - 4] == name)
  {
    hide LE, Memcrc;
    Limits();
    FromLEOfLE(Memcrc(data) as nat, 4);
    var p := CrcReply(uid, payload, name, data).payload;
    assert p[|p| - 4..] == LE(Memcrc(data) as nat, 4);
    if |uid| == UID_SIZE && |payload| >= 4 {
      assert p[..UID_SIZE] == uid;
      assert p[UID_SIZE..UID_SIZE + 4] == payload[..4];
      assert p[UID_SIZE + 4..|p| - 4] == name;
    }
  }

  /** An upload answered with the right checksum left the file on disk, whatever bytes arrived. */
  lemma UploadStores(c: Crypto, cfg: Config, st: Store, uid: Bytes, payload: Bytes)
    requires c.Valid() && Slice(payload, NAME_INDEX, CONTENT_INDEX) == NameField(cfg)
    requires Matches(cfg, EncryptedFile(c, st, uid, payload).1)
    ensures OnDisk(cfg, EncryptedFile(c, st, uid, payload).0, uid)
  {
    hide Memcrc, Content, RemovePipes, NameField, CrcReply, ServerCrc, Stem, Slice;
    var name := StoredName(cfg);
    var data := Content(c, st.clients[uid].aesKey, payload).value;
    CrcInReply(uid, payload, name, data);
    CrcAsNumber(Memcrc(data), Memcrc(cfg.file));
  }

  lemma GarbledName(x: Setting, w: World)
    requires x.Valid() && Build(x, w.client, SEND_FILE).Some?
    ensures Slice(Outgoing(x, w, SEND_FILE).payload, NAME_INDEX, CONTENT_INDEX) == NameField(x.cfg)
  {
    hide NameField, Encrypt, LE, TotalPackets, CipherSize;
    var payload := EncryptedPayload(x.crypto.aes, x.cfg, w.client.key);
    FilePayloadParts(|x.cfg.file|, 1, TotalPackets(|x.cfg.file|).value, NameField(x.cfg),
      Encrypt(x.crypto.aes, w.client.key, x.cfg.file));
    var sent := Outgoing(x, w, SEND_FILE).payload;
    assert sent[NAME_INDEX..CONTENT_INDEX] == payload[NAME_INDEX..CONTENT_INDEX];
  }

  // ---- an abort ------------------------------------------------------------------------------------

  /** The client's directory has no file of its name, and its row is not an unverified one of that name. */
  ghost predicate Removed(cfg: Config, st: Store, uid: Bytes) {
    && (uid in st.clients ==> StoredName(cfg) !in Dir(st, PathOf(st, uid)))
    && (RowOf(st, uid).Some? && !RowOf(st, uid).value.verified ==> RowOf(st, uid).value.fileName != StoredName(cfg))
  }

  /** A 902 that names the client's file removes exactly that file, and its row unless it is verified. */
  lemma AbortRemoves(c: Crypto, cfg: Config, st: Store, uid: Bytes)
    requires c.validUtf8(NameField(cfg))
    ensures var (st', a) := ValidOrAbort(c, st, uid, EXIT_CRC, NameField(cfg));
      && a == Reply(MSG_RECEIVED, uid) && Removed(cfg, st', uid) && st'.clients == st.clients
      && (uid in st.clients ==>
            Dir(st', PathOf(st', uid)) == map n | n in Dir(st, PathOf(st, uid)) && n != StoredName(cfg)
                                            :: Dir(st, PathOf(st, uid))[n])
      && RowOf(st', uid) == RowAfter(RowOf(st, uid), Drop(StoredName(cfg)), [])
  {
    hide RemovePipes, Stem, NameField;
    assert NameField(cfg)[0..NAME_SIZE] == NameField(cfg);
  }

  // ---- requests that leave files alone -------------------------------------------------------------

  /** Every registered client keeps its name and its directory. */
  ghost predicate FilesStay(st: Store, st': Store) {
    forall u :: u in st.clients ==>
      u in st'.clients && PathOf(st', u) == PathOf(st, u) && Dir(st', PathOf(st', u)) == Dir(st, PathOf(st, u))
  }

  lemma RegisterFilesStay(st: Store, payload: Bytes, draw: Draw)
    ensures FilesStay(st, Register(st, payload, draw).0)
  {
    hide IsAscii, Stem;
  }

  lemma KeysFilesStay(st: Store, st': Store)
    requires SameButKeys(st, st')
    ensures FilesStay(st, st')
  {
    hide Stem;
  }

  lemma ConfirmFilesStay(c: Crypto, st: Store, uid: Bytes, payload: Bytes)
    ensures FilesStay(st, ValidOrAbort(c, st, uid, VALID_CRC, payload).0)
  {
    hide NameIn, Stem;
  }

  /** Only uploads and aborts change a directory. */
  lemma HandleFilesStay(c: Crypto, st: Store, r: Request, draw: Draw)
    requires c.Valid() && r.code in {REGISTER, S_PUBLIC_KEY, RECONNECT, VALID_CRC}
    ensures FilesStay(st, Handle(c, st, r, draw).0)
  {
    hide Register, PublicKey, SignIn, EncryptedFile, ValidOrAbort, PathOf, Dir, SameButKeys;
    RegisterFilesStay(st, r.payload, draw);
    KeysChangeKeys(c, st, r.clientID, r.payload, draw);
    KeysFilesStay(st, PublicKey(c, st, r.clientID, r.payload, draw).0);
    KeysFilesStay(st, SignIn(c, st, r.clientID, draw).0);
    ConfirmFilesStay(c, st, r.clientID, r.payload);
  }

  lemma OnDiskStays(cfg: Config, st: Store, st': Store, uid: Bytes)
    requires OnDisk(cfg, st, uid)
    requires FilesStay(st, st') || ViewOf(st', uid) == ViewOf(st, uid)
    ensures OnDisk(cfg, st', uid)
  {
    hide Memcrc, RemovePipes, NameField, PathOf, Dir;
  }

  // ---- the client's side of keys -------------------------------------------------------------------

  /** A key the server hands out is the one it stores, and the client decrypts it or refuses it. */
  lemma GeneratedKey(c: Crypto, st: Store, uid: Bytes, draw: Draw, cs: ClientState)
    requires c.NeverWrong() && |uid| == UID_SIZE
    ensures var (st', e) := GenerateAesKey(c, st, uid, draw);
      e.Some? && ReceivedKey(c, cs, uid + e.value).Some? ==>
        && uid in st'.clients
        && ReceivedKey(c, cs, uid + e.value).value == st'.clients[uid].aesKey == draw.aesKey
  {
    var (st', e) := GenerateAesKey(c, st, uid, draw);
    if e.Some? {
      assert (uid + e.value)[UID_SIZE..] == e.value;
    }
  }

  ghost predicate Agree(cs: ClientState, st: Store, uid: Bytes) {
    uid in st.clients && cs.key == st.clients[uid].aesKey && |cs.key| == AES_KEY_SIZE
  }

  lemma ReceivedKeySize(c: Crypto, cs: ClientState, payload: Bytes)
    ensures ReceivedKey(c, cs, payload).Some? ==> |ReceivedKey(c, cs, payload).value| == AES_KEY_SIZE
  {
  }

  /** Both answers that carry a key leave both sides with the same one, if the client accepts. */
  lemma KeyExchanged(x: Setting, st: Store, r: Request, draw: Draw, cs: ClientState)
    requires x.Valid() && x.crypto.NeverWrong() && |r.clientID| == UID_SIZE && r.version == VERSION
    requires r.code in {S_PUBLIC_KEY, RECONNECT}
    ensures var (st', a) := Handle(x.crypto, st, r, draw);
      a.Some? && a.value.code in {IN_PUBLIC_OUT_AES, OK_RECONNECT} ==>
        var (cs', ok) := Process(x, cs, a.value); ok ==> Agree(cs', st', r.clientID)
  {
    hide GenerateAesKey, ReceivedKey, SetPublicKey;
    var uid := r.clientID;
    GeneratedKey(x.crypto, st, uid, draw, cs);
    if |r.payload| > PUBLIC_KEY_SIZE {
      GeneratedKey(x.crypto, SetPublicKey(st, uid, r.payload[|r.payload| - PUBLIC_KEY_SIZE..]), uid, draw, cs);
    }
    ReceivedKeySize(x.crypto, cs, Handle(x.crypto, st, r, draw).1.value.payload);
  }

  /** No other request of the client touches a stored key. */
  lemma KeysStay(c: Crypto, st: Store, r: Request, draw: Draw, u: Bytes)
    requires c.Valid() && r.code in {REGISTER, SEND_FILE, VALID_CRC, EXIT_CRC} && u in st.clients
    ensures var st' := Handle(c, st, r, draw).0; u in st'.clients && st'.clients[u] == st.clients[u]
  {
    hide Register, EncryptedFile, ValidOrAbort, IsAscii;
    FilesKeepClients(c, st, r.clientID, r.code, r.payload);
    RegisterKeepsRows(st, r.payload, draw, u);
  }

  lemma RegisterKeepsRows(st: Store, payload: Bytes, draw: Draw, u: Bytes)
    requires u in st.clients
    ensures var st' := Register(st, payload, draw).0; u in st'.clients && st'.clients[u] == st.clients[u]
  {
    hide IsAscii;
  }

  lemma ProcessKeepsKey(x: Setting, cs: ClientState, resp: Response)
    requires resp.code !in {IN_PUBLIC_OUT_AES, OK_RECONNECT}
    ensures Process(x, cs, resp).0.key == cs.key
  {
    hide ReceivedKey, Matches;
  }
}
