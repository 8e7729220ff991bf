/**
 The client's `main`: a new client registers and uploads its file, then signs in and uploads it again.
 */
module MainProgram {
  import opened Bytes
  import opened Database
  import opened Protocol
  import opened Server
  import opened ServerHistory
  import opened ClientRequests
  import opened ClientModel
  import opened Exchange
  import opened ClientOperations
  import opened ClientLog
  import opened Delivery
  import opened Soundness
  import opened ClientRuns
  import opened EndToEnd
  import opened FirstUpload

  // ---- 827 ---------------------------------------------------------------------------------------

  /** me.info, key.priv and the server's table are what registration and key exchange leave. */
  ghost predicate CanSignIn(x: Setting, w: World, uid: Bytes) {
    && x.Valid() && |uid| == UID_SIZE
    && w.client.meInfo == Some((x.cfg.userName, uid))
    && w.client.keyFile.Some? && Paired(x, w.client.keyFile.value, x.turns(|w.log|).draw)
    && |x.turns(|w.log|).draw.aesKey| == AES_KEY_SIZE
    && HasSentKey(x, Meanwhile(x, w), uid)
  }

  lemma OutgoingSignIn(x: Setting, w: World, uid: Bytes)
    requires CanSignIn(x, w, uid)
    ensures Build(x, w.client, RECONNECT) == Some((uid, Terminate(x.cfg.userName)))
    ensures Outgoing(x, w, RECONNECT) == Request(uid, VERSION, RECONNECT, Terminate(x.cfg.userName))
  {
    hide Paired, Meanwhile;
  }

  lemma SignInHandled(x: Setting, st: Store, uid: Bytes, draw: Draw, cs: ClientState)
    requires x.Valid() && cs.keyFile.Some? && Paired(x, cs.keyFile.value, draw) && |uid| == UID_SIZE
    requires HasSentKey(x, st, uid) && |draw.aesKey| == AES_KEY_SIZE
    ensures var (st', a) := SignIn(x.crypto, st, uid, draw);
      && st' == SetAesKey(st, uid, draw.aesKey)
      && a.code == OK_RECONNECT
      && ReceivedKey(x.crypto, cs, a.payload) == Some(draw.aesKey)
  {
    var rsa := x.crypto.importKey(x.cfg.publicKey).value;
    var e := x.crypto.oaepEncrypt(rsa, draw.seed, draw.aesKey).value;
    assert (uid + e)[UID_SIZE..] == e;
  }

  lemma DirectSignIn(x: Setting, w: World, uid: Bytes)
    requires CanSignIn(x, w, uid)
    ensures Build(x, w.client, RECONNECT).Some?
    ensures var r := Direct(x, w, RECONNECT);
      && r.status == Returned(true) && |r.w.log| == |w.log| + 1 && w.log < r.w.log
      && KeyAccepted(r.w.log[|w.log|], uid) && r.w.log[|w.log|].code == RECONNECT
      && r.w.client.response.code == OK_RECONNECT
      && r.w.client.clientID == uid && SameFiles(w.client, r.w.client)
      && r.w.server == SetAesKey(Meanwhile(x, w), uid, x.turns(|w.log|).draw.aesKey)
  {
    hide SignIn, Meanwhile, ReceivedKey, Matches, Paired, HasSentKey, Build, Outgoing, SetAesKey;
    OutgoingSignIn(x, w, uid);
    var draw := x.turns(|w.log|).draw;
    var a := SignIn(x.crypto, Meanwhile(x, w), uid, draw).1;
    SignInHandled(x, Meanwhile(x, w), uid, draw, w.client.(clientID := uid, response := a));
  }

  lemma SignedInHasKey(w: World, before: Log)
    requires |w.log| == |before| + 1 && before < w.log && w.log[|before|].code == RECONNECT
    requires KeyAccepted(w.log[|before|], w.client.clientID)
    ensures HasKey(w)
  {
    hide KeyAccepted;
  }

  /** The standing of a client that has signed in. */
  lemma SignInIs(x: Setting, w: World)
    requires Ready(x, w)
    requires var r := Send(x, w, RECONNECT); r.status == Returned(true) && r.w.client.response.code == OK_RECONNECT
    ensures var r := Send(x, w, RECONNECT);
      SignInClient(x, w) == r.w.(client := r.w.client.(registered := true))
  {
    hide Ready, Send, RegisterNewClient;
  }

  /** A sign-in takes one packet, replaces the stored key, and leaves both sides with the new one. */
  lemma SignInArrives(x: Setting, w: World, uid: Bytes)
    requires Ready(x, w) && CanSignIn(x, w, uid)
    ensures var w' := SignInClient(x, w);
      && |w'.log| == |w.log| + 1
      && w'.client.registered && w'.client.exited == w.client.exited && w'.client.clientID == uid
      && w'.server == SetAesKey(Meanwhile(x, w), uid, x.turns(|w.log|).draw.aesKey)
      && HasKey(w')
  {
    hide Ready, CanSignIn, Direct, Send, SignInClient, Meanwhile, ExchangeOk, KeyAccepted, HasKey;
    KnownCodes();
    ReadyValid(x, w);
    DirectSignIn(x, w, uid);
    ExchangeIsDirect(x, w, RECONNECT);
    SendIs(x, w, RECONNECT);
    SignInIs(x, w);
    SignedInHasKey(SignInClient(x, w), w.log);
  }

  // ---- main --------------------------------------------------------------------------------------

  lemma MainUnfolds(x: Setting, w: World)
    requires Ready(x, w) && !w.client.exited
    requires var w1 := RegisterNewClient(x, w); var w2 := UploadFile(x, w1); var w3 := SignInClient(x, w2);
      !w1.client.exited && !w2.client.exited && !w3.client.exited
    ensures RunClient(x, w, MAIN) == UploadFile(x, SignInClient(x, UploadFile(x, RegisterNewClient(x, w))))
  {
    hide Ready, RegisterNewClient, UploadFile, SignInClient;
    var w1 := RegisterNewClient(x, w);
    var w2 := UploadFile(x, w1);
    var w3 := SignInClient(x, w2);
    assert MAIN[1..] == [DoUpload, DoSignIn, DoUpload];
    assert RunClient(x, w, MAIN) == RunClient(x, w1, [DoUpload, DoSignIn, DoUpload]);
    assert [DoUpload, DoSignIn, DoUpload][1..] == [DoSignIn, DoUpload];
    assert RunClient(x, w1, [DoUpload, DoSignIn, DoUpload]) == RunClient(x, w2, [DoSignIn, DoUpload]);
    assert [DoSignIn, DoUpload][1..] == [DoUpload];
    assert RunClient(x, w2, [DoSignIn, DoUpload]) == RunClient(x, w3, [DoUpload]);
    assert [DoUpload][1..] == [];
  }

  lemma OthersKeepSentKey(x: Setting, w: World, uid: Bytes)
    requires Ready(x, w) && Alone(x, uid) && HasSentKey(x, w.server, uid)
    ensures x.Valid() && HasSentKey(x, Meanwhile(x, w), uid)
  {
    hide Ready, Run;
    ReadyValid(x, w);
    ForeignRowRun(x.crypto, w.server, x.turns(|w.log|).others, uid);
  }

  lemma SignInPossible(x: Setting, w: World, uid: Bytes)
    requires Ready(x, w) && Alone(x, uid) && HasSentKey(x, w.server, uid) && |uid| == UID_SIZE
    requires w.client.keyFile == Some(x.cfg.privateKey) && w.client.meInfo == Some((x.cfg.userName, uid))
    requires Paired(x, x.cfg.privateKey, x.turns(|w.log|).draw)
    ensures CanSignIn(x, w, uid)
  {
    hide Ready, Paired, HasSentKey, Meanwhile;
    ReadyValid(x, w);
    OthersKeepSentKey(x, w, uid);
    DrawnKey(x, w, |w.log|);
  }

  lemma SetKeyKeepsFiles(x: Setting, st: Store, uid: Bytes, key: Bytes)
    requires HasSentKey(x, st, uid)
    ensures SetAesKey(st, uid, key).files == st.files && HasSentKey(x, SetAesKey(st, uid, key), uid)
  {
  }

  lemma SignInSkipsKeys(x: Setting, w: World)
    requires Ready(x, w) && w.client.registered
    ensures KeyPhase(x, w) == Result(w, Returned(true)) && Continues(KeyPhase(x, w))
  {
  }

  lemma StoredParts(x: Setting, st: Store, uid: Bytes)
    requires Stored(x, st, uid)
    ensures RowOf(st, uid).Some? && RowOf(st, uid).value.fileName == StoredName(x.cfg)
  {
  }

  /** Signing in and uploading again, from a server that already holds the file verified. */
  lemma SecondUpload(x: Setting, from: Origin, w: World, uid: Bytes)
    requires Ready(x, w) && from.good && Sound(x, from, w) && x.crypto.NeverWrong() && Alone(x, uid)
    requires CanSignIn(x, w, uid) && HasSentKey(x, w.server, uid) && Stored(x, w.server, uid)
    requires Clean(x, |w.log| + 1)
    ensures var w1 := SignInClient(x, w); var w' := UploadFile(x, w1);
      && |w'.log| == |w.log| + 3 && Stored(x, w'.server, uid) && HasSentKey(x, w'.server, uid)
      && w'.client.registered && w'.client.crcValid
      && w1.client.exited == w'.client.exited == w.client.exited
  {
    hide *;
    var w1 := SignInClient(x, w);
    SignInArrives(x, w, uid);
    SignInSound(x, from, w);
    SignInSkipsKeys(x, w1);
    SoundInv(x, from, w);
    SoundInv(x, from, w1);
    SentKeyRegistered(x, w.server, uid);
    OthersKeepNewcomer(x, w, uid);
    ReadyValid(x, w);
    ReadyValid(x, w1);
    OthersKeepSentKey(x, w, uid);
    SetKeyKeepsFiles(x, Meanwhile(x, w), uid, x.turns(|w.log|).draw.aesKey);
    SentKeyRegistered(x, w1.server, uid);
    SameFilesSameRow(Meanwhile(x, w), w1.server, uid);
    OthersKeepNewcomer(x, w1, uid);
    StoredParts(x, w.server, uid);
    UploadEndToEnd(x, from, w1);
    UploadKeepsClient(x, from, w1);
    FilesOf(w1.client, UploadFile(x, w1).client);
    StillSentKey(x, w1.server, UploadFile(x, w1).server, uid);
    StoredIs(x, UploadFile(x, w1).server, uid);
  }

  /**
   All of `main` for a new client at any server in a good state, with nothing altered and nobody else
   using its uuid: seven packets, both uploads leave exactly the client's file on the server's disk and its
   row verified under that file's name, and the directory is the one of the client's user name.
   */
  lemma MainSucceeds(x: Setting, w: World)
    requires Ready(x, w) && w.log == [] && Inv(w.server) && Polite(x) && x.crypto.NeverWrong()
    requires Registrable(x, w) && NewClient(w) && Alone(x, x.turns(0).draw.uuid)
    requires Paired(x, x.cfg.privateKey, x.turns(1).draw) && Clean(x, 2)
    requires Paired(x, x.cfg.privateKey, x.turns(4).draw) && Clean(x, 5)
    ensures var uid := x.turns(0).draw.uuid; var w' := RunClient(x, w, MAIN);
      && Stored(x, UploadFile(x, RegisterNewClient(x, w)).server, uid)
      && |w'.log| == 7 && Stored(x, w'.server, uid)
      && w'.client.registered && w'.client.crcValid && !w'.client.exited
      && uid in w'.server.clients && w'.server.clients[uid].userName == x.cfg.userName + [0]
      && PathOf(w'.server, uid) == x.cfg.userName
  {
    hide *;
    var uid := x.turns(0).draw.uuid;
    var w2 := UploadFile(x, RegisterNewClient(x, w));
    FirstUploadFacts(x, w);
    DrawnUuid(x, w, 0);
    SignInPossible(x, w2, uid);
    SecondUpload(x, Origin(true, w.server), w2, uid);
    SentKeyRegistered(x, UploadFile(x, SignInClient(x, w2)).server, uid);
    NotExited(w);
    MainUnfolds(x, w);
  }

  lemma NotExited(w: World)
    requires NewClient(w)
    ensures !w.client.exited
  {
  }
}
