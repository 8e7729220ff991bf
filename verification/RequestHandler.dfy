/** Server/requestHandler.py and Server/Server.py in their own form: methods on a shared database. */
module RequestHandler {
  import opened Bytes
  import opened Crc
  import opened Database
  import opened Protocol
  import opened Transport
  import opened Server
  import opened ServerHistory
  import opened Lockstep

  /** No request upsets the numbering of the rows. */
  lemma NumberedAfter(c: Crypto, st: Store, r: Request, draw: Draw)
    requires c.Valid() && Numbered(st.clients)
    ensures Numbered(Handle(c, st, r, draw).0.clients)
  {
    hide Register, EncryptedFile, ValidOrAbort, PublicKey, SignIn, SameButKeys, Numbered;
    KeysChangeKeys(c, st, r.clientID, r.payload, draw);
    FilesKeepClients(c, st, r.clientID, r.code, r.payload);
    RegisterNumbers(st, r.payload, draw);
    SameButKeysNumbered(st, PublicKey(c, st, r.clientID, r.payload, draw).0);
    SameButKeysNumbered(st, SignIn(c, st, r.clientID, draw).0);
  }

  lemma InsertNumbers(clients: map<Bytes, ClientRow>, uid: Bytes, row: ClientRow)
    requires Numbered(clients) && uid !in clients && row.rowid == |clients.Keys|
    ensures Numbered(clients[uid := row])
  {
    assert clients[uid := row].Keys == clients.Keys + {uid};
  }

  lemma RegisterNumbers(st: Store, payload: Bytes, draw: Draw)
    requires Numbered(st.clients)
    ensures Numbered(Register(st, payload, draw).0.clients)
  {
    hide IsAscii, UuidOf, Numbered;
    if draw.uuid !in st.clients {
      InsertNumbers(st.clients, draw.uuid,
        ClientRow(|st.clients.Keys|, payload, PUBLIC_KEY_PLACEHOLDER, AES_KEY_PLACEHOLDER));
    }
  }

  lemma SameButKeysNumbered(st: Store, st': Store)
    requires SameButKeys(st, st') && Numbered(st.clients)
    ensures Numbered(st'.clients)
  {
  }

  lemma Narrow(crc: bv64, word: bv32)
    requires crc == word as bv64
    ensures crc <= 0xffff_ffff && crc as bv32 == word
  {
  }

  /** `readfile` on bytes already read. */
  method Checksum(data: Bytes) returns (crc: nat)
    ensures crc == Memcrc(data) as nat
  {
    hide Memcrc;
    var wide := ComputeMemcrc(data);
    Narrow(wide, Memcrc(data));
    crc := (wide as bv32) as nat;
  }

  lemma WrongVersion(c: Crypto, st: Store, r: Request, draw: Draw)
    requires c.Valid() && r.version != VERSION
    ensures Handle(c, st, r, draw) == (st, Some(ERROR))
  {
  }

  /** Answers written so far and answers the rest of the session gives make up `whole`. */
  ghost predicate Written(out: Bytes, rest: (Store, seq<Response>), start: Bytes, whole: (Store, seq<Response>)) {
    rest.0 == whole.0 && start + EncodeAnswers(whole.1) == out + EncodeAnswers(rest.1)
  }

  /** One answer more, or the end. */
  lemma SessionNext(c: Crypto, st: Store, s: Stream, draws: nat -> Draw, i: nat, out: Bytes)
    requires c.Valid()
    ensures var o := HandleRequest(c, st, s, draws(i));
      match o.answer
      case None => Session(c, st, s, draws, i) == (o.st, [])
      case Some(resp) =>
        var rest := Session(c, o.st, o.stream, draws, i + 1);
        && Session(c, st, s, draws, i).0 == rest.0
        && out + EncodeAnswers(Session(c, st, s, draws, i).1) ==
           out + EncodeResponse(resp) + EncodeAnswers(rest.1)
  {
    hide HandleRequest, EncodeResponse;
    var o := HandleRequest(c, st, s, draws(i));
    if o.answer.Some? {
      var resp := o.answer.value;
      var rest := Session(c, o.st, o.stream, draws, i + 1).1;
      assert ([resp] + rest)[1..] == rest;
      assert EncodeAnswers([resp] + rest) == EncodeResponse(resp) + EncodeAnswers(rest);
    }
  }

  class RequestHandler {
    const crypto: Crypto
    const database: DefensiveDB
    const socket: Socket

    ghost predicate Valid()
      reads database
    {
      crypto.Valid() && Numbered(database.clients)
    }

    constructor (crypto: Crypto, database: DefensiveDB, socket: Socket)
      ensures this.crypto == crypto && this.database == database && this.socket == socket
    {
      this.crypto, this.database, this.socket := crypto, database, socket;
    }

    method RegisterNewClient(payload: Bytes, draw: Draw) returns (response: Response)
      requires Valid()
      modifies database
      ensures (database.State(), response) == Register(old(database.State()), payload, draw)
    {
      if !IsAscii(payload) {
        return ERROR;
      }
      var found := database.FindUsername(payload);
      match found
      case Some(uid) =>
        response := Reply(REG_FAILED, uid);
      case None =>
        var ok := database.AddNewClient(draw.uuid, payload);
        response := if ok then Reply(REG_SUCCESSFUL, draw.uuid) else ERROR;
    }

    /** Server/CryptoHandler.py: `generate_aes_key` with `recover_public_key`. */
    method GenerateKey(uid: Bytes, draw: Draw) returns (key: Option<Bytes>)
      modifies database
      ensures (database.State(), key) == GenerateAesKey(crypto, old(database.State()), uid, draw)
    {
      var row := database.GetClient(uid);
      if row.None? || row.value.publicKey == PUBLIC_KEY_PLACEHOLDER {
        return None;
      }
      var rsa := crypto.importKey(row.value.publicKey);
      if rsa.None? {
        return None;
      }
      database.Update(AesKeyEntry(draw.aesKey), uid, []);
      key := crypto.oaepEncrypt(rsa.value, draw.seed, draw.aesKey);
    }

    method HandlePublicKey(uid: Bytes, payload: Bytes, draw: Draw) returns (response: Response)
      modifies database
      ensures (database.State(), response) == PublicKey(crypto, old(database.State()), uid, payload, draw)
    {
      hide GenerateAesKey;
      if |payload| <= PUBLIC_KEY_SIZE {
        return ERROR;
      }
      database.Update(PublicKeyEntry(payload[|payload| - PUBLIC_KEY_SIZE..]), uid, []);
      var key := GenerateKey(uid, draw);
      response := if key.None? then ERROR else Reply(IN_PUBLIC_OUT_AES, uid + key.value);
    }

    method HandleSignIn(uid: Bytes, draw: Draw) returns (response: Response)
      modifies database
      ensures (database.State(), response) == SignIn(crypto, old(database.State()), uid, draw)
    {
      hide GenerateAesKey;
      var key := GenerateKey(uid, draw);
      response := if key.None? then Reply(RECONNECT_FAILED, uid) else Reply(OK_RECONNECT, uid + key.value);
    }

    /** The file is read back from the disk for its checksum. */
    method BuildDecryptedFilePayload(uid: Bytes, name: Bytes, payload: Bytes) returns (response: Response)
      requires uid in database.clients
      requires name in Dir(database.State(), Stem(database.clients[uid].userName))
      ensures response ==
              CrcReply(uid, payload, name, Dir(database.State(), Stem(database.clients[uid].userName))[name])
    {
      hide Stem, Memcrc, Slice, LE;
      var row := database.GetClient(uid);
      var data := database.Read(Stem(row.value.userName), name);
      var crc := Checksum(data.value);
      response := Reply(VALID_CRC_FILE, uid + Slice(payload, 0, 4) + name + LE(crc, 4));
    }

    method Save(uid: Bytes, name: Bytes, data: Bytes)
      requires uid in database.clients
      modifies database
      ensures database.State() == SaveFile(old(database.State()), uid, name, data)
    {
      hide Stem;
      var row := database.GetClient(uid);
      database.Write(Stem(row.value.userName), name, data);
      var ok := database.AddNewFile(uid, name);
    }

    method HandleEncryptedFile(uid: Bytes, payload: Bytes) returns (response: Response)
      requires crypto.Valid()
      modifies database
      ensures (database.State(), response) == EncryptedFile(crypto, old(database.State()), uid, payload)
    {
      hide Stem, CrcReply, Content, NameIn;
      var name := NameIn(crypto, payload, NAME_INDEX, CONTENT_INDEX);
      if name.None? {
        return ERROR;
      }
      var row := database.GetClient(uid);
      if row.None? {
        return ERROR;
      }
      var data := Content(crypto, row.value.aesKey, payload);
      if data.None? || name.value == [] {
        return ERROR;
      }
      Save(uid, name.value, data.value);
      response := BuildDecryptedFilePayload(uid, name.value, payload);
    }

    method HandleValidOrAbort(uid: Bytes, code: nat, payload: Bytes) returns (response: Response)
      modifies database
      ensures (database.State(), response) ==
              ValidOrAbort(crypto, old(database.State()), uid, code, payload)
    {
      hide Stem, NameIn;
      var name := NameIn(crypto, payload, 0, NAME_SIZE);
      if name.None? {
        return ERROR;
      }
      if code == VALID_CRC {
        database.Update(VerifiedEntry, uid, name.value);
      } else {
        var row := database.GetClient(uid);
        if row.Some? {
          var removed := database.Remove(Stem(row.value.userName), name.value);
        }
        database.DeleteUnverifiedFile(uid, name.value);
      }
      response := Reply(MSG_RECEIVED, uid);
    }

    /** `req_select` for every handler that does not read the socket again. */
    method Select(r: Request, draw: Draw) returns (answer: Option<Response>)
      requires Valid() && r.version == VERSION && r.code != N_VALID_CRC
      modifies database
      ensures Valid()
      ensures (database.State(), answer) == Handle(crypto, old(database.State()), r, draw)
    {
      hide Register, PublicKey, SignIn, EncryptedFile, ValidOrAbort, Numbered;
      NumberedAfter(crypto, database.State(), r, draw);
      answer := None;
      if r.code == REGISTER {
        var resp := RegisterNewClient(r.payload, draw);
        answer := Some(resp);
      } else if r.code == S_PUBLIC_KEY {
        var resp := HandlePublicKey(r.clientID, r.payload, draw);
        answer := Some(resp);
      } else if r.code == RECONNECT {
        var resp := HandleSignIn(r.clientID, draw);
        answer := Some(resp);
      } else if r.code == SEND_FILE {
        var resp := HandleEncryptedFile(r.clientID, r.payload);
        answer := Some(resp);
      } else if r.code == VALID_CRC || r.code == EXIT_CRC {
        var resp := HandleValidOrAbort(r.clientID, r.code, r.payload);
        answer := Some(resp);
      }
    }

    /** One call of `handle_request`; 901 makes it call itself for the request that follows. */
    method ServeRequest(draw: Draw) returns (answer: Option<Response>)
      requires Valid()
      modifies database, socket`incoming
      ensures Valid()
      ensures Outcome(database.State(), socket.incoming, answer) ==
              HandleRequest(crypto, old(database.State()), old(socket.incoming), draw)
      decreases |socket.incoming.pending|
    {
      hide Handle, RecvPayload, Numbered, ParseRequestHeader;
      var data := socket.Receive(REQUEST_HEADER_SIZE);
      if |data| != REQUEST_HEADER_SIZE {
        return None;
      }
      var h := ParseRequestHeader(data);
      RecvPayloadPrefix(socket.incoming, h.size);
      var payload := socket.ReceivePayload(h.size);
      assert |data + old(socket.incoming.pending)[|data|..]| == |old(socket.incoming.pending)|;
      assert |socket.incoming.pending| < |old(socket.incoming.pending)|;
      if h.version != VERSION {
        WrongVersion(crypto, database.State(), Request(h.clientID, h.version, h.code, payload), draw);
        answer := Some(ERROR);
      } else if h.code == N_VALID_CRC {
        answer := ServeRequest(draw);
      } else {
        answer := Select(Request(h.clientID, h.version, h.code, payload), draw);
      }
    }

    /** Server/Server.py: `handle_client`. */
    method HandleClient(draws: nat -> Draw)
      requires Valid()
      modifies database, socket
      ensures var (st, answers) := Session(crypto, old(database.State()), old(socket.incoming), draws, 0);
        && database.State() == st
        && socket.outgoing == old(socket.outgoing) + EncodeAnswers(answers)
    {
      hide HandleRequest, Session, Numbered, EncodeResponse;
      ghost var whole := Session(crypto, database.State(), socket.incoming, draws, 0);
      ghost var start := socket.outgoing;
      var i := 0;
      var open := true;
      while open
        invariant Valid()
        invariant open ==>
          Written(socket.outgoing, Session(crypto, database.State(), socket.incoming, draws, i), start, whole)
        invariant !open ==> Written(socket.outgoing, (database.State(), []), start, whole)
        decreases open, |socket.incoming.pending|
      {
        SessionNext(crypto, database.State(), socket.incoming, draws, i, socket.outgoing);
        var answer := ServeRequest(draws(i));
        match answer
        case None =>
          open := false;
        case Some(response) =>
          var sent := socket.Write(EncodeResponse(response));
          i := i + 1;
      }
    }
  }
}
