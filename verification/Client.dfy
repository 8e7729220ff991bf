/**
 Client/Client.cpp in its own form: an object whose methods update its packets and flags.  The
 server's request handler stands at the other end of the client's socket.
 */
module Client {
  import opened Bytes
  import opened Crc
  import opened Database
  import opened Protocol
  import opened Transport
  import opened Server
  import opened ServerHistory
  import opened Lockstep
  import opened RequestHandler
  import opened ClientRequests
  import opened ClientModel
  import opened Exchange
  import opened ClientOperations

  lemma {:induction false} EncodeAllAppend(reqs: seq<Request>, r: Request)
    requires r.Fits() && forall q :: q in reqs ==> q.Fits()
    ensures EncodeAll(reqs + [r]) == EncodeAll(reqs) + EncodeRequest(r)
  {
    hide EncodeRequest;
    if reqs == [] {
      assert reqs + [r] == [r];
      assert EncodeAll([r]) == EncodeRequest(r) + EncodeAll([]);
    } else {
      assert reqs[0] in reqs;
      assert (reqs + [r])[1..] == reqs[1..] + [r];
      EncodeAllAppend(reqs[1..], r);
    }
  }

  lemma NoBytes()
    ensures EncodeAll([]) == []
  {
  }

  /** What the client makes of the bytes it reads, as one response. */
  function Read(bytes: Bytes): Option<Response> {
    match ParseResponse(bytes)
    case None => None
    case Some((response, _)) => Some(response)
  }

  /** Client/connectionHandler.cpp: `receiveData` with `receiveInChunks`, on what the server wrote. */
  method ReceiveData(bytes: Bytes) returns (response: Option<Response>)
    ensures response == Read(bytes)
  {
    hide FromLE;
    if |bytes| < RESPONSE_HEADER_SIZE {
      return None;
    }
    var version, code := FromLE(bytes[..1]), FromLE(bytes[1..3]);
    var payloadSize := FromLE(bytes[3..7]);
    if |bytes| < RESPONSE_HEADER_SIZE + payloadSize {
      return None;
    }
    var payload: Bytes := [];
    var at := RESPONSE_HEADER_SIZE;
    var left := payloadSize;
    while left > 0
      invariant at + left == RESPONSE_HEADER_SIZE + payloadSize
      invariant payload == bytes[RESPONSE_HEADER_SIZE..at]
    {
      var toGet := Min(left, CHUNK_SIZE);
      payload := payload + bytes[at..at + toGet];
      at := at + toGet;
      left := left - toGet;
    }
    response := Some(Response(version, code, payload));
  }

  /** Another client's request, handled on the shared database. */
  method HandleOther(handler: RequestHandler, e: Event)
    requires handler.Valid()
    modifies handler.database
    ensures handler.Valid()
    ensures handler.database.State() == Handle(handler.crypto, old(handler.database.State()), e.request, e.draw).0
  {
    hide Register, PublicKey, SignIn, EncryptedFile, ValidOrAbort, Numbered;
    if e.request.version == VERSION && e.request.code != N_VALID_CRC {
      var answer := handler.Select(e.request, e.draw);
    }
  }

  method HandleOthers(handler: RequestHandler, others: seq<Event>)
    requires handler.Valid()
    modifies handler.database
    ensures handler.Valid()
    ensures handler.database.State() == Run(handler.crypto, old(handler.database.State()), others)
  {
    hide Handle, Numbered;
    for i := 0 to |others|
      invariant handler.Valid()
      invariant Run(handler.crypto, handler.database.State(), others[i..]) ==
                Run(handler.crypto, old(handler.database.State()), others)
    {
      HandleOther(handler, others[i]);
      assert others[i..][0] == others[i] && others[i..][1..] == others[i + 1..];
    }
    assert others[|others|..] == [];
  }

  /** The client after the answer to a packet it sent under `id`. */
  function AfterAnswer(
    x: Setting, cs: ClientState, open: bool, log: seq<Entry>, code: nat, id: Bytes, answer: Option<Response>)
    : (ClientState, bool, seq<Entry>, Status)
  {
    match answer
    case None => (cs, false, log + [Entry(code, id, None, false, cs.crcValid)], Threw)
    case Some(resp) =>
      match Receive(x, cs, EncodeResponse(resp))
      case None => (cs, open, log + [Entry(code, id, None, false, cs.crcValid)], Threw)
      case Some((resp, cs', ok)) =>
        (cs', open, log + [Entry(code, id, Some(resp), ok, cs'.crcValid)], if ok then Returned(true) else Threw)
  }

  lemma ReadyParts(x: Setting, w: World)
    requires Ready(x, w)
    ensures x.Valid() && w.open
  {
  }

  /** `Send`, case by case. */
  lemma SendCases(x: Setting, w: World, code: nat)
    requires Ready(x, w) && Known(code)
    ensures Build(x, w.client, code).None? ==> Send(x, w, code) == Result(w, Threw)
    ensures Build(x, w.client, code).Some? ==>
      var req := Outgoing(x, w, code); var id := req.clientID; var st := Meanwhile(x, w); var sent := w.sent + [req];
      var cs := w.client.(clientID := id);
      && id == Build(x, w.client, code).value.0
      && (forall r :: r in sent ==> r.Fits())
      && if code == N_VALID_CRC then
           Send(x, w, code) ==
             Result(World(cs, st, sent, w.open, w.log + [Entry(code, id, None, true, cs.crcValid)]), Returned(true))
         else
           var o := HandleRequest(x.crypto, st, Wire(sent), x.turns(|w.log|).draw);
           var (cs', open, log, status) := AfterAnswer(x, cs, w.open, w.log, code, id, o.answer);
           Send(x, w, code) == Result(World(cs', o.st, [], open, log), status)
  {
    hide Run, HandleRequest, Build, Garble, EncodeAll, EncodeResponse, Sized, Setting.Sane, Receive, ExchangeOk;
    if Build(x, w.client, code).Some? {
      BuildFits(x, w, code, x.turns(|w.log|).noise);
    }
  }

  lemma RegisteredPayload(x: Setting, w: World)
    requires Ready(x, w) && Known(REGISTER)
    requires var r := Send(x, w, REGISTER); r.status.Returned? && r.w.client.response.code == REG_SUCCESSFUL
    ensures |Send(x, w, REGISTER).w.client.response.payload| == UID_SIZE
  {
    hide Ready, FlagAfter;
  }

  class Client {
    const x: Setting
    const handler: RequestHandler
    const socket: Socket

    var clientID: Bytes
    var registered: bool
    var crcValid: bool
    var key: Bytes
    var response: Response
    var keyFile: Option<Bytes>
    var meInfo: Option<(Bytes, Bytes)>
    var exited: bool
    var open: bool
    var log: seq<Entry>
    ghost var sent: seq<Request>

    function Own(): ClientState
      reads this
    {
      ClientState(clientID, registered, crcValid, key, response, keyFile, meInfo, exited)
    }

    ghost function State(): World
      reads this, handler.database
    {
      World(Own(), handler.database.State(), sent, open, log)
    }

    /** The socket holds the bytes of the requests the server has not read. */
    ghost predicate Valid()
      reads this, handler.database, socket, handler.socket
    {
      && socket != handler.socket && handler.crypto == x.crypto && handler.Valid()
      && Ready(x, State())
      && socket.outgoing == EncodeAll(sent)
    }

    /** Key and identity files may be left from an earlier run. */
    constructor (x: Setting, handler: RequestHandler, socket: Socket,
                 clientID: Bytes, key: Bytes, keyFile: Option<Bytes>, meInfo: Option<(Bytes, Bytes)>)
      requires socket != handler.socket && socket.outgoing == []
      requires handler.crypto == x.crypto && handler.Valid()
      requires Ready(x, World(
        ClientState(clientID, false, true, key, Response(0, 0, []), keyFile, meInfo, false),
        handler.database.State(), [], true, []))
      ensures Valid() && this.x == x && this.handler == handler && this.socket == socket
      ensures Own() == ClientState(clientID, false, true, key, Response(0, 0, []), keyFile, meInfo, false)
      ensures open && log == [] && sent == []
    {
      this.x, this.handler, this.socket := x, handler, socket;
      this.clientID, this.key, this.keyFile, this.meInfo := clientID, key, keyFile, meInfo;
      registered, crcValid, exited, open := false, true, false, true;
      response, log, sent := Response(0, 0, []), [], [];
    }

    /** The registration, public-key, upload, confirmation and sign-in builders by code. */
    method RequestSelector(code: nat) returns (packet: Option<(Bytes, Bytes)>)
      requires x.Valid()
      ensures packet == Build(x, Own(), code)
    {
      hide Sendable, EncryptedPayload, PadName;
      if code == REGISTER {
        return Some((IGNORED_ID, Terminate(x.cfg.userName)));
      } else if code == S_PUBLIC_KEY {
        return Some((clientID, Terminate(x.cfg.userName) + x.cfg.publicKey));
      } else if code == SEND_FILE {
        var payload := EncryptFile(x.crypto.aes, x.cfg, key);
        return if payload.None? then None else Some((clientID, payload.value));
      } else if code == RECONNECT {
        if meInfo.None? || meInfo.value.0 == [] || |meInfo.value.0| > NAME_SIZE || |meInfo.value.1| != UID_SIZE {
          return None;
        }
        return Some((meInfo.value.1, Terminate(meInfo.value.0)));
      } else if code == VALID_CRC || code == N_VALID_CRC || code == EXIT_CRC {
        var name := GetFileName(x.cfg.fileName);
        return Some((clientID, name[..NAME_SIZE]));
      }
      packet := None;
    }

    /** Client/connectionHandler.cpp: `sendData`. */
    method SendData(req: Request)
      requires req.Fits()
      modifies socket`outgoing
      ensures socket.outgoing == old(socket.outgoing) + EncodeRequest(req)
    {
      hide RequestHeader;
      var header := new byte[REQUEST_HEADER_SIZE];
      SetRequestHeader(Header(req.clientID, req.version, req.code, |req.payload|), header);
      var bytesSent := socket.Write(header[..]);
      var ok := socket.SendInChunks(req.payload);
      assert socket.outgoing == old(socket.outgoing) + (header[..] + req.payload);
    }

    /** Client/responseHandler.cpp: `createNewClientFile` after `saveEncodedPrivateKey`. */
    method CreateNewClientFile(payload: Bytes) returns (ok: bool)
      modifies this
      ensures (Own(), ok) == Process(x, old(Own()), Response(VERSION, REG_SUCCESSFUL, payload))
      ensures open == old(open) && log == old(log) && sent == old(sent)
    {
      if keyFile.Some? {
        return false;
      }
      keyFile := Some(x.cfg.privateKey);
      if meInfo.Some? {
        return false;
      }
      meInfo := Some((x.cfg.userName, payload));
      ok := true;
    }

    /** `checkSum`: the local file's checksum against the last four bytes of the payload. */
    method CheckSum(payload: Bytes)
      modifies this`crcValid
      ensures crcValid == (ServerCrc(payload) == Memcrc(x.cfg.file) as nat)
    {
      hide Memcrc, FromLE;
      var crcClient := Checksum(x.cfg.file);
      crcValid := crcClient == ServerCrc(payload);
    }

    /** `responseSelector` */
    method ResponseSelector(resp: Response) returns (ok: bool)
      modifies this
      ensures (Own(), ok) == Process(x, old(Own()), resp)
      ensures open == old(open) && log == old(log) && sent == old(sent)
    {
      hide Memcrc, ServerCrc, ReceivedKey;
      if resp.code in {GENERAL_ERROR, REG_FAILED, RECONNECT_FAILED, MSG_RECEIVED} {
        ok := true;
      } else if resp.code == REG_SUCCESSFUL {
        ok := CreateNewClientFile(resp.payload);
      } else if resp.code == IN_PUBLIC_OUT_AES || resp.code == OK_RECONNECT {
        var received := ReceivedKey(x.crypto, Own(), resp.payload);
        if received.None? {
          return false;
        }
        key := received.value;
        ok := true;
      } else if resp.code == VALID_CRC_FILE {
        CheckSum(resp.payload);
        ok := true;
      } else {
        ok := false;
      }
    }

    /** Reading the answer, if the server gave one, and acting on it. */
    method ReceiveAnswer(code: nat, id: Bytes, answer: Option<Response>) returns (status: Status)
      modifies this
      ensures (Own(), open, log, status) == AfterAnswer(x, old(Own()), old(open), old(log), code, id, answer)
      ensures sent == old(sent)
    {
      hide Process, EncodeResponse, ParseResponse;
      if answer.None? {
        open, log := false, log + [Entry(code, id, None, false, crcValid)];
        return Threw;
      }
      var resp := ReceiveData(EncodeResponse(answer.value));
      if resp.None? {
        log := log + [Entry(code, id, None, false, crcValid)];
        return Threw;
      }
      response := resp.value;
      assert Own() == old(Own()).(response := resp.value);
      var ok := ResponseSelector(resp.value);
      log := log + [Entry(code, id, resp, ok, crcValid)];
      assert Receive(x, old(Own()), EncodeResponse(answer.value)) == Some((resp.value, Own(), ok));
      status := if ok then Returned(true) else Threw;
    }

    /** Others' requests come first; then the packet goes out. */
    method SendRequest(code: nat, id: Bytes, payload: Bytes)
      requires Valid() && Known(code) && Build(x, Own(), code) == Some((id, payload))
      modifies this`clientID, this`sent, handler.database, socket`outgoing
      ensures handler.Valid()
      ensures State() == old(State()).(
        client := old(Own()).(clientID := id), server := old(Meanwhile(x, State())),
        sent := old(sent) + [old(Outgoing(x, State(), code))])
      ensures forall r :: r in sent ==> r.Fits()
      ensures socket.outgoing == EncodeAll(sent)
    {
      hide Run, Build, Garble, EncodeAll, EncodeRequest, Sized, Numbered, Setting.Sane;
      ghost var w := State();
      var turn := x.turns(|log|);
      BuildFits(x, w, code, turn.noise);
      HandleOthers(handler, turn.others);
      var req := Request(id, VERSION, code, Garble(code, payload, turn.noise));
      EncodeAllAppend(sent, req);
      clientID := id;
      SendData(req);
      sent := sent + [req];
    }

    /** `sendAndRecieve` */
    method SendAndReceive(code: nat) returns (status: Status)
      requires Valid() && Known(code)
      modifies this, handler.database, handler.socket`incoming, socket`outgoing
      ensures Valid()
      ensures Result(State(), status) == Send(x, old(State()), code)
    {
      hide Ready, Known, HandleRequest, Build, EncodeAll, AfterAnswer, ExchangeOk, Numbered, Meanwhile,
           Outgoing, Send;
      ghost var w := State();
      ReadyParts(x, w);
      SendCases(x, w, code);
      var packet := RequestSelector(code);
      if packet.None? {
        return Threw;
      }
      var id, payload := packet.value.0, packet.value.1;
      SendRequest(code, id, payload);
      if code == N_VALID_CRC {
        log := log + [Entry(code, id, None, true, crcValid)];
        return Returned(true);
      }
      handler.socket.incoming := Stream(socket.outgoing, [], []);
      var answer := handler.ServeRequest(x.turns(|log|).draw);
      socket.outgoing, sent := [], [];
      NoBytes();
      status := ReceiveAnswer(code, id, answer);
    }

    /** `errorResend`: twice more, whatever the first answer. */
    method ErrorResend(toDo: nat) returns (status: Status)
      requires Valid() && Known(toDo)
      modifies this, handler.database, handler.socket`incoming, socket`outgoing
      ensures Valid()
      ensures Result(State(), status) == ClientOperations.ErrorResend(x, old(State()), toDo)
    {
      hide Ready, Known, ExchangeOk, Send, Numbered, EncodeAll;
      ghost var w := State();
      for i := 0 to 2
        invariant Valid()
        invariant i == 0 ==> State() == w
        invariant i == 1 ==> Send(x, w, toDo).w == State() && Send(x, w, toDo).status.Returned?
        invariant i == 2 ==>
          && Send(x, w, toDo).status.Returned?
          && Send(x, Send(x, w, toDo).w, toDo).w == State()
          && Send(x, Send(x, w, toDo).w, toDo).status.Returned?
      {
        var sending := SendAndReceive(toDo);
        if sending.Threw? {
          return Threw;
        }
      }
      status := Returned(response.code != GENERAL_ERROR);
    }

    /** `sendAndRecieve` and the macro RESEND_IF_SERVER_ERROR. */
    method SendWithResend(code: nat) returns (status: Status)
      requires Valid() && Known(code)
      modifies this, handler.database, handler.socket`incoming, socket`outgoing
      ensures Valid()
      ensures Result(State(), status) == ClientOperations.SendWithResend(x, old(State()), code)
    {
      hide Ready, Known, ExchangeOk, Send, Numbered, EncodeAll, ClientOperations.ErrorResend;
      status := SendAndReceive(code);
      if status.Returned? && response.code == GENERAL_ERROR {
        status := ErrorResend(code);
      }
    }

    /** `resendEncryptedMessage` */
    method ResendEncryptedMessage() returns (status: Status)
      requires Valid()
      modifies this, handler.database, handler.socket`incoming, socket`outgoing
      ensures Valid()
      ensures Result(State(), status) == ClientOperations.ResendEncryptedMessage(x, old(State()))
    {
      hide Ready, Known, ExchangeOk, Send, Numbered, EncodeAll;
      ghost var w := State();
      KnownCodes();
      var i := 0;
      while i < 2 && !crcValid
        invariant 0 <= i <= 2 && Valid()
        invariant Rounds(x, State(), 2 - i) == Rounds(x, w, 2)
      {
        var rejecting := SendAndReceive(N_VALID_CRC);
        if rejecting.Threw? {
          return Threw;
        }
        var sending := SendAndReceive(SEND_FILE);
        if sending.Threw? {
          return Threw;
        }
        i := i + 1;
      }
      if crcValid {
        return Returned(true);
      }
      status := SendAndReceive(EXIT_CRC);
      if status.Returned? {
        status := Returned(false);
      }
    }

    /** The `try` of `uploadFile`; `Returned(false)` is one of its early returns. */
    method Upload() returns (status: Status)
      requires Valid()
      modifies this, handler.database, handler.socket`incoming, socket`outgoing
      ensures Valid()
      ensures Result(State(), status) == UploadBody(x, old(State()))
    {
      hide Ready, Known, ExchangeOk, Numbered, EncodeAll, ClientOperations.SendWithResend,
           ClientOperations.ResendEncryptedMessage;
      KnownCodes();
      if !registered {
        status := SendWithResend(S_PUBLIC_KEY);
        if status != Returned(true) {
          return;
        }
      }
      status := SendWithResend(SEND_FILE);
      if status != Returned(true) {
        return;
      }
      if !crcValid {
        status := ResendEncryptedMessage();
        if status != Returned(true) {
          return;
        }
      }
      status := SendWithResend(VALID_CRC);
    }

    /** `uploadFile`: after an exception the program ends. */
    method UploadFile()
      requires Valid()
      modifies this, handler.database, handler.socket`incoming, socket`outgoing
      ensures Valid()
      ensures State() == ClientOperations.UploadFile(x, old(State()))
    {
      hide Ready, Numbered, EncodeAll, UploadBody;
      var status := Upload();
      ReadyId(x, State());
      ReadyWithClient(x, State(), Own().(exited := true));
      if status.Threw? {
        exited := true;
      }
    }

    /** `registerNewClient` */
    method RegisterNewClient() returns (ok: bool)
      requires Valid()
      modifies this, handler.database, handler.socket`incoming, socket`outgoing
      ensures Valid()
      ensures State() == ClientOperations.RegisterNewClient(x, old(State()))
      ensures ok ==> response.code == REG_SUCCESSFUL && clientID == response.payload
    {
      hide Ready, Numbered, EncodeAll, Send, FlagAfter;
      KnownCodes();
      ghost var w := State();
      var status := SendAndReceive(REGISTER);
      if status.Threw? || response.code != REG_SUCCESSFUL {
        return false;
      }
      RegisteredPayload(x, w);
      ReadyWithClient(x, State(), Own().(clientID := response.payload[..UID_SIZE]));
      clientID := response.payload[..UID_SIZE];
      ok := true;
    }

    /** `signIn`: a client the server does not know registers. */
    method SignIn() returns (ok: bool)
      requires Valid()
      modifies this, handler.database, handler.socket`incoming, socket`outgoing
      ensures Valid()
      ensures State() == SignInClient(x, old(State()))
      ensures ok ==> registered || response.code == REG_SUCCESSFUL
    {
      hide Ready, Numbered, EncodeAll, Send, FlagAfter, ClientOperations.RegisterNewClient;
      KnownCodes();
      var status := SendAndReceive(RECONNECT);
      if status.Threw? {
        return false;
      }
      if response.code == RECONNECT_FAILED {
        ok := RegisterNewClient();
      } else if response.code == OK_RECONNECT {
        ReadyId(x, State());
        ReadyWithClient(x, State(), Own().(registered := true));
        registered := true;
        ok := true;
      } else {
        ok := false;
      }
    }

    method Perform(op: Operation)
      requires Valid()
      modifies this, handler.database, handler.socket`incoming, socket`outgoing
      ensures Valid()
      ensures State() == ClientOperations.Perform(x, old(State()), op)
    {
      hide Ready, Numbered, EncodeAll, ClientOperations.RegisterNewClient, ClientOperations.UploadFile, SignInClient;
      if exited {
        return;
      }
      match op
      case DoRegister => var ok := RegisterNewClient();
      case DoSignIn => var ok := SignIn();
      case DoUpload => UploadFile();
    }

    /** A program of operations; `main` is the program MAIN. */
    method RunOperations(ops: seq<Operation>)
      requires Valid()
      modifies this, handler.database, handler.socket`incoming, socket`outgoing
      ensures Valid()
      ensures State() == RunClient(x, old(State()), ops)
    {
      hide Ready, Numbered, EncodeAll, ClientOperations.Perform;
      ghost var w := State();
      for i := 0 to |ops|
        invariant Valid()
        invariant RunClient(x, State(), ops[i..]) == RunClient(x, w, ops)
      {
        Perform(ops[i]);
        assert ops[i..][0] == ops[i] && ops[i..][1..] == ops[i + 1..];
      }
      assert ops[|ops|..] == [];
    }
  }

  lemma EmptyReady(x: Setting, cs: ClientState)
    requires x.Valid() && x.Sane() && |cs.clientID| == UID_SIZE
    ensures Ready(x, World(cs, Store(map[], map[], map[]), [], true, []))
  {
  }

  /** A new client and a new server, connected. */
  method Connect(x: Setting) returns (client: Client)
    requires x.Valid() && x.Sane()
    ensures fresh(client) && client.Valid() && client.x == x
    ensures client.State() == World(
      ClientState(Repeat(0, UID_SIZE), false, true, [], Response(0, 0, []), None, None, false),
      Store(map[], map[], map[]), [], true, [])
  {
    hide Ready;
    var database := new DefensiveDB();
    var accepted := new Socket(Stream([], [], []));
    var handler := new RequestHandler(x.crypto, database, accepted);
    var socket := new Socket(Stream([], [], []));
    EmptyReady(x, ClientState(Repeat(0, UID_SIZE), false, true, [], Response(0, 0, []), None, None, false));
    client := new Client(x, handler, socket, Repeat(0, UID_SIZE), [], None, None);
  }
}
