/**
 The protocol from its beginning: a new client registers, exchanges keys, uploads its file and
 confirms it, in four packets, while other clients go on with their own requests.
 */
module FirstUpload {
  import opened Bytes
  import opened Cipher
  import opened Database
  import opened Protocol
  import opened Server
  import opened ServerHistory
  import opened ClientRequests
  import opened ClientModel
  import opened Exchange
  import opened ClientOperations
  import opened Delivery
  import opened Soundness
  import opened ClientRuns
  import opened EndToEnd

  // ---- 825 ---------------------------------------------------------------------------------------

  /** The server can register this client under the uuid it draws. */
  ghost predicate Registrable(x: Setting, w: World) {
    && x.Valid() && IsAscii(x.cfg.userName)
    && UuidOf(Meanwhile(x, w), Terminate(x.cfg.userName)).None?
    && x.turns(|w.log|).draw.uuid !in Meanwhile(x, w).clients
  }

  lemma OutgoingRegistration(x: Setting, w: World)
    requires x.Valid()
    ensures Build(x, w.client, REGISTER).Some?
    ensures Outgoing(x, w, REGISTER) == Request(IGNORED_ID, VERSION, REGISTER, Terminate(x.cfg.userName))
  {
  }

  /** The server knows the client under the name of transfer.info with a NUL. */
  predicate IsNamed(x: Setting, st: Store, uid: Bytes) {
    uid in st.clients && st.clients[uid].userName == x.cfg.userName + [0]
  }

  lemma Registers(st: Store, name: Bytes, draw: Draw)
    requires IsAscii(name) && UuidOf(st, Terminate(name)).None? && draw.uuid !in st.clients
    ensures var (st', a) := Register(st, Terminate(name), draw);
      && a == Reply(REG_SUCCESSFUL, draw.uuid)
      && draw.uuid in st'.clients && st'.clients[draw.uuid].userName == name + [0] && st'.files == st.files
  {
    hide UuidOf;
  }

  /** A client without key and identity files, at a server that does not know its name. */
  ghost predicate NewClient(w: World) {
    w.client.keyFile.None? && w.client.meInfo.None? && !w.client.registered && !w.client.exited
  }

  lemma DirectRegistration(x: Setting, w: World)
    requires x.Valid() && Registrable(x, w) && NewClient(w) && Build(x, w.client, REGISTER).Some?
    ensures var r := Direct(x, w, REGISTER); var uid := x.turns(|w.log|).draw.uuid;
      && r.status == Returned(true) && |r.w.log| == |w.log| + 1
      && r.w.client.response == Reply(REG_SUCCESSFUL, uid)
      && r.w.client.keyFile == Some(x.cfg.privateKey) && r.w.client.meInfo == Some((x.cfg.userName, uid))
      && !r.w.client.registered && !r.w.client.exited
      && IsNamed(x, r.w.server, uid) && r.w.server.files == Meanwhile(x, w).files
  {
    hide Register, Meanwhile, Build, Outgoing, UuidOf, ReceivedKey, Matches, IsAscii;
    OutgoingRegistration(x, w);
    Registers(Meanwhile(x, w), x.cfg.userName, x.turns(|w.log|).draw);
  }

  lemma RegistrationArrives(x: Setting, w: World)
    requires Ready(x, w) && Registrable(x, w) && NewClient(w)
    ensures var w' := RegisterNewClient(x, w); var uid := x.turns(|w.log|).draw.uuid;
      && |w'.log| == |w.log| + 1
      && w'.client.clientID == uid
      && w'.client.keyFile == Some(x.cfg.privateKey) && w'.client.meInfo == Some((x.cfg.userName, uid))
      && !w'.client.registered && !w'.client.exited
      && IsNamed(x, w'.server, uid) && w'.server.files == Meanwhile(x, w).files
  {
    hide Ready, Meanwhile, Build, Outgoing, UuidOf, Direct, Send, ExchangeOk, IsAscii;
    KnownCodes();
    OutgoingRegistration(x, w);
    ExchangeIsDirect(x, w, REGISTER);
    DirectRegistration(x, w);
    SendIs(x, w, REGISTER);
    DrawnUuid(x, w, |w.log|);
  }

  lemma DrawnUuid(x: Setting, w: World, n: nat)
    requires Ready(x, w)
    ensures |x.turns(n).draw.uuid| == UID_SIZE
  {
  }

  // ---- 826 ---------------------------------------------------------------------------------------

  /** The client's private key decrypts what the server encrypts under the key it is sent. */
  ghost predicate Paired(x: Setting, privateKey: Bytes, draw: Draw) {
    && var rsa := x.crypto.importKey(x.cfg.publicKey);
      && rsa.Some?
      && var e := x.crypto.oaepEncrypt(rsa.value, draw.seed, draw.aesKey);
        e.Some? && |e.value| > 0 && x.crypto.oaepDecrypt(privateKey, e.value) == Some(draw.aesKey)
  }

  /** The client is registered, and the server has its public key. */
  predicate HasSentKey(x: Setting, st: Store, uid: Bytes) {
    IsNamed(x, st, uid) && st.clients[uid].publicKey == x.cfg.publicKey
  }

  /** The server takes the public key off the end of the payload, past the name. */
  lemma OutgoingKey(x: Setting, w: World)
    requires x.Valid()
    ensures Build(x, w.client, S_PUBLIC_KEY).Some?
    ensures var req := Outgoing(x, w, S_PUBLIC_KEY);
      && req.clientID == w.client.clientID && req.version == VERSION && req.code == S_PUBLIC_KEY
      && |req.payload| > PUBLIC_KEY_SIZE
      && req.payload[|req.payload| - PUBLIC_KEY_SIZE..] == x.cfg.publicKey
  {
  }

  lemma KeyHandled(x: Setting, st: Store, r: Request, draw: Draw, cs: ClientState)
    requires x.Valid() && cs.keyFile.Some? && Paired(x, cs.keyFile.value, draw)
    requires IsNamed(x, st, r.clientID) && |r.clientID| == UID_SIZE
    requires |draw.aesKey| == AES_KEY_SIZE && |r.payload| > PUBLIC_KEY_SIZE
    requires r.payload[|r.payload| - PUBLIC_KEY_SIZE..] == x.cfg.publicKey
    ensures var (st', a) := PublicKey(x.crypto, st, r.clientID, r.payload, draw);
      && st'.files == st.files && HasSentKey(x, st', r.clientID)
      && a.code == IN_PUBLIC_OUT_AES
      && ReceivedKey(x.crypto, cs, a.payload) == Some(draw.aesKey)
  {
    var rsa := x.crypto.importKey(x.cfg.publicKey).value;
    var e := x.crypto.oaepEncrypt(rsa, draw.seed, draw.aesKey).value;
    assert (r.clientID + e)[UID_SIZE..] == e;
  }

  lemma DirectKey(x: Setting, w: World)
    requires x.Valid() && Build(x, w.client, S_PUBLIC_KEY).Some? && |w.client.clientID| == UID_SIZE
    requires IsNamed(x, Meanwhile(x, w), w.client.clientID)
    requires w.client.keyFile.Some? && Paired(x, w.client.keyFile.value, x.turns(|w.log|).draw)
    requires |x.turns(|w.log|).draw.aesKey| == AES_KEY_SIZE
    ensures var r := Direct(x, w, S_PUBLIC_KEY);
      && r.status == Returned(true) && |r.w.log| == |w.log| + 1
      && r.w.client.response.code == IN_PUBLIC_OUT_AES
      && r.w.client.clientID == w.client.clientID
      && r.w.server.files == Meanwhile(x, w).files && HasSentKey(x, r.w.server, w.client.clientID)
  {
    hide PublicKey, Meanwhile, Build, Outgoing, ReceivedKey, Matches, Paired;
    OutgoingKey(x, w);
    var req := Outgoing(x, w, S_PUBLIC_KEY);
    var draw := x.turns(|w.log|).draw;
    var a := PublicKey(x.crypto, Meanwhile(x, w), req.clientID, req.payload, draw).1;
    var cs := w.client.(clientID := req.clientID, response := a);
    KeyHandled(x, Meanwhile(x, w), req, draw, cs);
  }

  lemma KeyPhaseArrives(x: Setting, w: World)
    requires Ready(x, w) && !w.client.registered && IsNamed(x, Meanwhile(x, w), w.client.clientID)
    requires w.client.keyFile.Some? && Paired(x, w.client.keyFile.value, x.turns(|w.log|).draw)
    ensures var r := KeyPhase(x, w);
      && Continues(r) && |r.w.log| == |w.log| + 1
      && r.w.client.clientID == w.client.clientID && SameFiles(w.client, r.w.client)
      && r.w.server.files == Meanwhile(x, w).files && HasSentKey(x, r.w.server, w.client.clientID)
  {
    hide Ready, Meanwhile, Build, Outgoing, Direct, Send, ExchangeOk, Paired, ErrorResend;
    SendKeepsFiles(x, w, S_PUBLIC_KEY);
    KnownCodes();
    ReadyValid(x, w);
    OutgoingKey(x, w);
    ExchangeIsDirect(x, w, S_PUBLIC_KEY);
    DrawnKey(x, w, |w.log|);
    DirectKey(x, w);
    SendIs(x, w, S_PUBLIC_KEY);
  }

  lemma DrawnKey(x: Setting, w: World, n: nat)
    requires Ready(x, w)
    ensures |x.turns(n).draw.aesKey| == AES_KEY_SIZE
  {
  }

  // ---- all four packets -----------------------------------------------------------------------------

  lemma OthersKeepNewcomer(x: Setting, w: World, uid: Bytes)
    requires Ready(x, w) && Polite(x) && Alone(x, uid) && Inv(w.server) && uid in w.server.clients
    ensures uid in Meanwhile(x, w).clients && RowOf(Meanwhile(x, w), uid) == RowOf(w.server, uid)
  {
    hide Ready, Inv, Run, PathOf, Dir, TerminatesName;
    ReadyValid(x, w);
    ForeignRun(x.crypto, w.server, x.turns(|w.log|).others, uid);
  }

  lemma OthersKeepName(x: Setting, w: World, uid: Bytes)
    requires Ready(x, w) && Alone(x, uid) && IsNamed(x, w.server, uid)
    ensures uid in w.server.clients && IsNamed(x, Meanwhile(x, w), uid)
  {
    hide Ready, Run;
    ReadyValid(x, w);
    ForeignRowRun(x.crypto, w.server, x.turns(|w.log|).others, uid);
  }

  lemma NewcomerHasNoRow(st: Store, uid: Bytes)
    requires Inv(st) && uid !in st.clients
    ensures RowOf(st, uid) == None
  {
    assert RowOk(st, uid);
  }

  lemma SameFilesSameRow(a: Store, b: Store, uid: Bytes)
    requires a.files == b.files
    ensures RowOf(a, uid) == RowOf(b, uid)
  {
  }

  /** The server's disk holds exactly the client's file, and its row is verified under that name. */
  predicate Stored(x: Setting, st: Store, uid: Bytes) {
    && ReadFile(st, PathOf(st, uid), StoredName(x.cfg)) == Some(x.cfg.file)
    && RowOf(st, uid).Some?
    && RowOf(st, uid).value.fileName == StoredName(x.cfg) && RowOf(st, uid).value.verified
  }

  lemma StoredIs(x: Setting, st: Store, uid: Bytes)
    requires ReadFile(st, PathOf(st, uid), StoredName(x.cfg)) == Some(x.cfg.file)
    requires RowOf(st, uid).Some?
    requires RowOf(st, uid).value.fileName == StoredName(x.cfg) && RowOf(st, uid).value.verified
    ensures Stored(x, st, uid)
  {
  }

  lemma FilesOf(cs: ClientState, cs': ClientState)
    requires SameFiles(cs, cs')
    ensures cs'.keyFile == cs.keyFile && cs'.meInfo == cs.meInfo
    ensures cs'.registered == cs.registered && cs'.exited == cs.exited
  {
  }

  lemma SentKeyRegistered(x: Setting, st: Store, uid: Bytes)
    requires HasSentKey(x, st, uid)
    ensures uid in st.clients && st.clients[uid].userName == x.cfg.userName + [0]
    ensures PathOf(st, uid) == x.cfg.userName
  {
  }

  lemma StillSentKey(x: Setting, st: Store, st': Store, uid: Bytes)
    requires HasSentKey(x, st, uid) && uid in st'.clients && st'.clients[uid] == st.clients[uid]
    ensures HasSentKey(x, st', uid)
  {
  }

  lemma FirstUploadFacts(x: Setting, w: World)
    requires Ready(x, w) && w.log == [] && Inv(w.server) && Polite(x) && x.crypto.NeverWrong()
    requires Registrable(x, w) && NewClient(w) && Alone(x, x.turns(0).draw.uuid)
    requires Paired(x, x.cfg.privateKey, x.turns(1).draw) && Clean(x, 2)
    ensures var uid := x.turns(0).draw.uuid; var w' := UploadFile(x, RegisterNewClient(x, w));
      && |w'.log| == 4 && Stored(x, w'.server, uid)
      && w'.client.keyFile == Some(x.cfg.privateKey) && w'.client.meInfo == Some((x.cfg.userName, uid))
      && !w'.client.exited && !RegisterNewClient(x, w).client.exited
      && HasSentKey(x, w'.server, uid) && Sound(x, Origin(true, w.server), w')
  {
    hide *;
    var uid := x.turns(0).draw.uuid;
    var from := Origin(true, w.server);
    RegistrationArrives(x, w);
    SoundAtStart(x, from, w);
    RegisterSound(x, from, w);
    var w1 := RegisterNewClient(x, w);
    SoundInv(x, from, w1);
    OthersKeepName(x, w1, uid);
    OthersKeepNewcomer(x, w1, uid);
    KeyPhaseArrives(x, w1);
    KeyPhaseHasKey(x, w1);
    var w2 := KeyPhase(x, w1).w;
    KeyPhaseFacts(x, from, w1);
    SoundInv(x, from, w2);
    SentKeyRegistered(x, w2.server, uid);
    OthersKeepNewcomer(x, w2, uid);
    UploadEndToEnd(x, from, w1);
    ReadyValid(x, w);
    OthersKeepInv(x, w);
    NewUuidUnknown(x, w);
    NewcomerHasNoRow(Meanwhile(x, w), uid);
    SameFilesSameRow(Meanwhile(x, w), w1.server, uid);
    SameFilesSameRow(Meanwhile(x, w1), w2.server, uid);
    UploadKeepsClient(x, from, w1);
    UploadFacts(x, from, w1);
    var w' := UploadFile(x, w1);
    FilesOf(w1.client, w2.client);
    FilesOf(w2.client, w'.client);
    StillSentKey(x, w2.server, w'.server, uid);
    StoredIs(x, w'.server, uid);
  }

  /**
   A new client at any server in a good state: after registering and one upload, with nothing
   altered and nobody else using its uuid, the server's disk holds exactly its file, its row is
   verified under that file's name, and four packets were sent.
   */
  lemma FirstUploadSucceeds(x: Setting, w: World)
    requires Ready(x, w) && w.log == [] && Inv(w.server) && Polite(x) && x.crypto.NeverWrong()
    requires Registrable(x, w) && NewClient(w) && Alone(x, x.turns(0).draw.uuid)
    requires Paired(x, x.cfg.privateKey, x.turns(1).draw) && Clean(x, 2)
    ensures var uid := x.turns(0).draw.uuid; var w' := UploadFile(x, RegisterNewClient(x, w));
      && |w'.log| == 4
      && ReadFile(w'.server, PathOf(w'.server, uid), StoredName(x.cfg)) == Some(x.cfg.file)
      && RowOf(w'.server, uid).Some?
      && RowOf(w'.server, uid).value.fileName == StoredName(x.cfg) && RowOf(w'.server, uid).value.verified
      && PathOf(w'.server, uid) == x.cfg.userName
  {
    FirstUploadFacts(x, w);
    SentKeyRegistered(x, UploadFile(x, RegisterNewClient(x, w)).server, x.turns(0).draw.uuid);
  }

  lemma NewUuidUnknown(x: Setting, w: World)
    requires Registrable(x, w)
    ensures x.turns(|w.log|).draw.uuid !in Meanwhile(x, w).clients
  {
  }

  // ---- the assumptions can hold together -------------------------------------------------------------

  /** A trivial cipher, and an OAEP that hides nothing but never decrypts wrongly. */
  function PlainCrypto(): Crypto {
    Crypto(
      BlockCipher((key, b) => b, (key, b) => b),
      (p: Bytes) => Some(p),
      (rsa, seed, m) => if |m| == AES_KEY_SIZE then Some(m) else None,
      (privateKey, e) => Some(e),
      b => true)
  }

  lemma PlainCryptoValid()
    ensures var c := PlainCrypto(); c.Valid() && c.FitsPackets() && c.NeverWrong()
  {
  }

  function QuietSetting(): Setting {
    Setting(
      PlainCrypto(),
      Config([0x61], [0x66], [], Repeat(1, PUBLIC_KEY_SIZE), [2]),
      n => Turn([], Draw(Repeat(9, UID_SIZE), Repeat(7, AES_KEY_SIZE), []), b => b))
  }

  function FirstWorld(): World {
    World(
      ClientState(Repeat(0, UID_SIZE), false, true, [], Response(0, 0, []), None, None, false),
      Store(map[], map[], map[]), [], true, [])
  }

  lemma QuietReady()
    ensures Ready(QuietSetting(), FirstWorld())
  {
    hide PlainCrypto;
    PlainCryptoValid();
  }

  lemma QuietPolite()
    ensures var x := QuietSetting(); Polite(x) && x.crypto.NeverWrong() && Alone(x, x.turns(0).draw.uuid)
  {
    hide PlainCrypto;
    PlainCryptoValid();
  }

  lemma QuietRegistrable()
    ensures Registrable(QuietSetting(), FirstWorld()) && NewClient(FirstWorld())
  {
    hide PlainCrypto;
    PlainCryptoValid();
  }

  lemma QuietPaired(n: nat)
    ensures var x := QuietSetting(); Paired(x, x.cfg.privateKey, x.turns(n).draw)
  {
  }

  lemma QuietClean(n: nat)
    ensures Clean(QuietSetting(), n)
  {
    hide NameField, RemovePipes;
    StoredNameIsOwn(QuietSetting().cfg);
  }

  lemma QuietEmpty()
    ensures FirstWorld().log == [] && Inv(FirstWorld().server)
  {
    EmptyInv();
  }

  /** A client that meets every assumption, whichever packets they speak of. */
  lemma FirstUploadIsPossible() returns (x: Setting, w: World)
    ensures Ready(x, w) && w.log == [] && Inv(w.server) && Polite(x) && x.crypto.NeverWrong()
    ensures Registrable(x, w) && NewClient(w) && Alone(x, x.turns(0).draw.uuid)
    ensures forall n :: Paired(x, x.cfg.privateKey, x.turns(n).draw) && Clean(x, n)
  {
    hide *;
    x, w := QuietSetting(), FirstWorld();
    QuietReady();
    QuietPolite();
    QuietRegistrable();
    forall n ensures Paired(x, x.cfg.privateKey, x.turns(n).draw) && Clean(x, n) {
      QuietPaired(n);
      QuietClean(n);
    }
    QuietEmpty();
  }
}
