/** One exchange in full: what the client reads is the handler's answer to what it just sent. */
module Exchange {
  import opened Bytes
  import opened Crc
  import opened Database
  import opened Protocol
  import opened Transport
  import opened Server
  import opened ServerHistory
  import opened Lockstep
  import opened ClientRequests
  import opened ClientModel

  /** However many 901s wait on the wire, the request behind them gets its own answer. */
  lemma {:induction false} SkipSilent(
    c: Crypto, st: Store, s: Stream, silent: seq<Request>, r: Request, draw: Draw)
    requires c.Valid() && r.Fits() && !Silent(r)
    requires forall q :: q in silent ==> q.Fits() && Silent(q)
    requires s.cuts == [] && s.pending == EncodeAll(silent + [r])
    ensures var o := HandleRequest(c, st, s, draw); (o.st, o.answer) == Handle(c, st, r, draw)
    decreases silent
  {
    hide HandleRequest, Handle, Silent, EncodeRequest, Arrives, AfterRequest, Recv, RecvPayload;
    if silent == [] {
      assert silent + [r] == [r];
      assert EncodeAll([r]) == EncodeRequest(r) + EncodeAll([]);
      UncutArrives(s, r, []);
      FramedRequest(c, st, s, r, [], draw);
    } else {
      assert silent[0] in silent;
      assert (silent + [r])[1..] == silent[1..] + [r];
      UncutArrives(s, silent[0], EncodeAll(silent[1..] + [r]));
      FramedRequest(c, st, s, silent[0], EncodeAll(silent[1..] + [r]), draw);
      var after := AfterRequest(s, |silent[0].payload|);
      SkipSilent(c, st, after, silent[1..], r, draw);
    }
  }

  lemma RegisterSized(st: Store, payload: Bytes, draw: Draw)
    requires Sized(st) && |draw.uuid| == UID_SIZE
    ensures Sized(Register(st, payload, draw).0)
  {
    hide IsAscii, UuidOf;
  }

  lemma SizedStep(c: Crypto, st: Store, r: Request, draw: Draw)
    requires c.Valid() && Sized(st) && |draw.uuid| == UID_SIZE
    ensures Sized(Handle(c, st, r, draw).0)
  {
    hide Register, EncryptedFile, ValidOrAbort, PublicKey, SignIn, SameButKeys;
    RegisterSized(st, r.payload, draw);
    KeysChangeKeys(c, st, r.clientID, r.payload, draw);
    FilesKeepClients(c, st, r.clientID, r.code, r.payload);
    SameKeysSized(st, PublicKey(c, st, r.clientID, r.payload, draw).0);
    SameKeysSized(st, SignIn(c, st, r.clientID, draw).0);
  }

  lemma SameKeysSized(st: Store, st': Store)
    requires SameButKeys(st, st') && Sized(st)
    ensures Sized(st')
  {
  }

  lemma {:induction false} SizedRun(c: Crypto, st: Store, run: seq<Event>)
    requires c.Valid() && Sized(st)
    requires forall e :: e in run ==> |e.draw.uuid| == UID_SIZE
    ensures Sized(Run(c, st, run))
    decreases run
  {
    hide Handle, Sized;
    if run != [] {
      assert run[0] in run;
      SizedStep(c, st, run[0].request, run[0].draw);
      SizedRun(c, Handle(c, st, run[0].request, run[0].draw).0, run[1..]);
    }
  }

  /** The codes a request can be answered with. */
  function AnswerCodes(code: nat): set<nat> {
    if code == REGISTER then {REG_SUCCESSFUL, REG_FAILED, GENERAL_ERROR}
    else if code == S_PUBLIC_KEY then {IN_PUBLIC_OUT_AES, GENERAL_ERROR}
    else if code == RECONNECT then {OK_RECONNECT, RECONNECT_FAILED, GENERAL_ERROR}
    else if code == SEND_FILE then {VALID_CRC_FILE, GENERAL_ERROR}
    else {MSG_RECEIVED, GENERAL_ERROR}
  }

  lemma AnswersAre(c: Crypto, st: Store, r: Request, draw: Draw)
    requires c.Valid()
    ensures var a := Handle(c, st, r, draw).1;
      a.Some? ==> a.value.version == VERSION && a.value.code in AnswerCodes(r.code)
  {
    hide GenerateAesKey, NameIn, Content, SaveFile;
  }

  lemma KeysFit(c: Crypto, st: Store, uid: Bytes, payload: Bytes, draw: Draw)
    requires c.FitsPackets() && |uid| == UID_SIZE
    ensures PublicKey(c, st, uid, payload, draw).1.Fits()
    ensures SignIn(c, st, uid, draw).1.Fits()
  {
    hide SetPublicKey;
  }

  lemma FileFits(c: Crypto, st: Store, uid: Bytes, payload: Bytes)
    requires c.Valid() && |uid| == UID_SIZE
    ensures EncryptedFile(c, st, uid, payload).1.Fits()
  {
    hide Content, SaveFile, Memcrc, LE, RemovePipes;
    RemovePipesShorter(Slice(payload, NAME_INDEX, CONTENT_INDEX));
  }

  lemma RegisterFits(st: Store, payload: Bytes, draw: Draw)
    requires Sized(st) && |draw.uuid| == UID_SIZE
    ensures var a := Register(st, payload, draw).1;
      a.Fits() && (a.code == REG_SUCCESSFUL ==> a.payload == draw.uuid)
  {
    hide IsAscii;
  }

  lemma EndFits(c: Crypto, st: Store, uid: Bytes, code: nat, payload: Bytes)
    requires |uid| == UID_SIZE
    ensures ValidOrAbort(c, st, uid, code, payload).1.Fits()
  {
    hide NameIn;
  }

  /** Every answer fits its header. */
  lemma AnswerFits(c: Crypto, st: Store, r: Request, draw: Draw)
    requires c.Valid() && c.FitsPackets() && Sized(st) && r.Fits() && |draw.uuid| == UID_SIZE
    ensures var a := Handle(c, st, r, draw).1; a.Some? ==> a.value.Fits()
  {
    hide Register, EncryptedFile, ValidOrAbort, PublicKey, SignIn, Sized, Crypto.FitsPackets;
    RegisterFits(st, r.payload, draw);
    KeysFit(c, st, r.clientID, r.payload, draw);
    FileFits(c, st, r.clientID, r.payload);
    EndFits(c, st, r.clientID, r.code, r.payload);
  }

  /** A 1600 carries the uuid drawn for the new client, and the client is registered under it. */
  lemma NewUuid(c: Crypto, st: Store, r: Request, draw: Draw)
    requires c.Valid()
    ensures var (st', a) := Handle(c, st, r, draw);
      a.Some? && a.value.code == REG_SUCCESSFUL ==> a.value.payload == draw.uuid && draw.uuid in st'.clients
  {
    hide EncryptedFile, ValidOrAbort, PublicKey, SignIn, IsAscii;
    AnswersAre(c, st, r, draw);
  }

  // ---- one exchange -----------------------------------------------------------------------------

  ghost predicate Ready(x: Setting, w: World) {
    x.Valid() && x.Sane() && WellFormed(x, w) && w.open
  }

  /** The packet the server gets for this code. */
  ghost function Outgoing(x: Setting, w: World, code: nat): Request
    requires x.Valid() && Build(x, w.client, code).Some?
  {
    var (id, payload) := Build(x, w.client, code).value;
    Request(id, VERSION, code, Garble(code, payload, x.turns(|w.log|).noise))
  }

  /** What the store is when the packet is handled. */
  ghost function Meanwhile(x: Setting, w: World): Store
    requires x.Valid()
  {
    Run(x.crypto, w.server, x.turns(|w.log|).others)
  }

  /** The exchange without bytes: handle the packet, process the answer. */
  ghost function Direct(x: Setting, w: World, code: nat): Result
    requires x.Valid() && Build(x, w.client, code).Some?
  {
    var req := Outgoing(x, w, code);
    var (st, a) := Handle(x.crypto, Meanwhile(x, w), req, x.turns(|w.log|).draw);
    if a.None? then Result(w, Threw)
    else
      var cs := w.client.(clientID := req.clientID, response := a.value);
      var (cs', ok) := Process(x, cs, a.value);
      Result(World(cs', st, [], true, w.log + [Entry(code, req.clientID, a, ok, cs'.crcValid)]),
             if ok then Returned(true) else Threw)
  }

  /** Every response the client reads answers the request it has just sent. */
  lemma ExchangeIsDirect(x: Setting, w: World, code: nat)
    requires Ready(x, w) && Known(code) && code != N_VALID_CRC && Build(x, w.client, code).Some?
    ensures SendAndReceive(x, w, code) == Direct(x, w, code)
    ensures Handle(x.crypto, Meanwhile(x, w), Outgoing(x, w, code), x.turns(|w.log|).draw).1.Some?
  {
    hide Handle, HandleRequest, Process, Build, Garble, ParseResponse, EncodeResponse, EncodeAll, Run;
    hide Sized;
    var turn := x.turns(|w.log|);
    var req := Outgoing(x, w, code);
    var st := Meanwhile(x, w);
    BuildFits(x, w, code, turn.noise);
    SizedRun(x.crypto, w.server, turn.others);
    SkipSilent(x.crypto, st, Wire(w.sent + [req]), w.sent, req, turn.draw);
    KnownIsAnswered(x.crypto, st, req, turn.draw);
    AnswerFits(x.crypto, st, req, turn.draw);
    var a := Handle(x.crypto, st, req, turn.draw).1.value;
    ResponseRoundTrip(a, []);
    assert EncodeResponse(a) + [] == EncodeResponse(a);
  }

  /** Only a 1603 moves the flag, and it says whether the checksums agree. */
  function FlagAfter(cfg: Config, before: bool, answer: Option<Response>): bool {
    if answer.Some? && answer.value.code == VALID_CRC_FILE then Matches(cfg, answer.value) else before
  }

  /** What one exchange does to the client's control state, whatever the server answered. */
  ghost predicate ExchangeOk(x: Setting, w: World, code: nat, r: Result) {
    if r.w.log == w.log then r == Result(w, Threw)
    else
      && |r.w.log| == |w.log| + 1 && w.log < r.w.log
      && var e := r.w.log[|w.log|];
        && e.code == code
        && e.uid == r.w.client.clientID
        && r.status == (if e.accepted then Returned(true) else Threw)
        && (code == N_VALID_CRC <==> e.answer.None?)
        && (e.answer.Some? ==>
              e.answer.value.code in AnswerCodes(code) && r.w.client.response == e.answer.value)
        && (code in {SEND_FILE, VALID_CRC, N_VALID_CRC, EXIT_CRC} ==> e.accepted)
        && e.crcValid == r.w.client.crcValid == FlagAfter(x.cfg, w.client.crcValid, e.answer)
        && r.w.client.registered == w.client.registered && r.w.client.exited == w.client.exited
        && (e.answer.Some? && e.answer.value.code == REG_SUCCESSFUL ==> |e.answer.value.payload| == UID_SIZE)
  }

  lemma ReadyWithClient(x: Setting, w: World, cs: ClientState)
    requires Ready(x, w) && |cs.clientID| == UID_SIZE
    ensures Ready(x, w.(client := cs))
  {
    hide Sized, Setting.Sane, Setting.Valid;
  }

  lemma ProcessKeepsControl(x: Setting, cs: ClientState, resp: Response)
    ensures var (cs', _) := Process(x, cs, resp);
      && cs'.registered == cs.registered && cs'.exited == cs.exited && cs'.response == cs.response
      && cs'.clientID == cs.clientID
      && cs'.crcValid == FlagAfter(x.cfg, cs.crcValid, Some(resp))
    ensures resp.code in {GENERAL_ERROR, VALID_CRC_FILE, MSG_RECEIVED} ==> Process(x, cs, resp).1
  {
    hide ReceivedKey, Matches;
  }

  lemma ExchangeFacts(x: Setting, w: World, code: nat)
    requires Ready(x, w) && Known(code)
    ensures var r := SendAndReceive(x, w, code); Ready(x, r.w) && ExchangeOk(x, w, code, r)
  {
    hide Handle, HandleRequest, Process, Garble, EncodeAll, Run, Sized, FlagAfter;
    if Build(x, w.client, code).Some? {
      var turn := x.turns(|w.log|);
      var st := Meanwhile(x, w);
      SizedRun(x.crypto, w.server, turn.others);
      BuildFits(x, w, code, turn.noise);
      if code == N_VALID_CRC {
        UnansweredFlag(x, w.client.crcValid);
      } else {
        var req := Outgoing(x, w, code);
        ExchangeIsDirect(x, w, code);
        SizedStep(x.crypto, st, req, turn.draw);
        AnswersAre(x.crypto, st, req, turn.draw);
        NewUuid(x.crypto, st, req, turn.draw);
        var a := Handle(x.crypto, st, req, turn.draw).1.value;
        ProcessKeepsControl(x, w.client.(clientID := req.clientID, response := a), a);
      }
    }
  }

  lemma UnansweredFlag(x: Setting, flag: bool)
    ensures FlagAfter(x.cfg, flag, None) == flag
  {
  }
}
