/** The invariant of a client and the server it shares, kept by every packet the client sends. */
module Soundness {
  import opened Bytes
  import opened Database
  import opened Protocol
  import opened Server
  import opened ServerHistory
  import opened Isolation
  import opened ClientRequests
  import opened ClientModel
  import opened Exchange
  import opened ClientOperations
  import opened ClientLog
  import opened Delivery

  /** Others register names that end in NUL. */
  ghost predicate Polite(x: Setting) {
    forall n, e :: e in x.turns(n).others ==> TerminatesName(e.request)
  }

  /** Nobody else uses this uuid: one session a client. */
  ghost predicate Alone(x: Setting, uid: Bytes) {
    forall n, e :: e in x.turns(n).others ==> e.request.clientID != uid
  }

  /** While the latest upload is a validated one of this uuid, its file is on the server's disk. */
  ghost predicate Kept(cfg: Config, log: Log, st: Store, uid: Bytes) {
    LastUploadValidated(cfg, log) && LastUpload(log).value.uid == uid ==> OnDisk(cfg, st, uid)
  }

  /** The client accepted a key for this uuid. */
  predicate KeyAccepted(e: Entry, uid: Bytes) {
    e.uid == uid && e.accepted && e.answer.Some? && e.answer.value.code in {IN_PUBLIC_OUT_AES, OK_RECONNECT}
  }

  /** While the latest key exchange is an accepted one of this uuid, both sides hold the same key. */
  ghost predicate KeysAgree(log: Log, cs: ClientState, st: Store, uid: Bytes) {
    LastKey(log).Some? && KeyAccepted(LastKey(log).value, uid) ==> Agree(cs, st, uid)
  }

  /** Where a run began: its store, and whether that is good and others polite. */
  datatype Origin = Origin(good: bool, store: Store)

  /** Nobody but this client sends anything. */
  ghost predicate Solo(x: Setting) {
    forall n :: x.turns(n).others == []
  }

  function Answers(log: Log): seq<Option<Response>> {
    seq(|log|, i requires 0 <= i < |log| => log[i].answer)
  }

  /** The client's packets as the server saw them: handled in a row they give its store and the answers. */
  ghost predicate Traces(x: Setting, start: Store, w: World, run: seq<Event>)
    requires x.Valid()
  {
    && HandleAll(x.crypto, start, run) == (w.server, Answers(w.log))
    && |run| == |w.log|
    && forall i :: 0 <= i < |run| ==>
      && run[i].request.version == VERSION && run[i].request.code == w.log[i].code && Known(w.log[i].code)
      && run[i].request.clientID == w.log[i].uid
  }

  ghost predicate KeyGuarded(x: Setting, w: World, uid: Bytes) {
    Alone(x, uid) ==> KeysAgree(w.log, w.client, w.server, uid)
  }

  ghost predicate FileGuarded(x: Setting, w: World, uid: Bytes) {
    Alone(x, uid) ==> Kept(x.cfg, w.log, w.server, uid)
  }

  /** Right after a 902 its file is gone from the server. */
  ghost predicate AbortDone(x: Setting, log: Log, st: Store) {
    x.crypto.validUtf8(NameField(x.cfg)) && log != [] && log[|log| - 1].code == EXIT_CRC ==>
      Removed(x.cfg, st, log[|log| - 1].uid)
  }

  /**
   The log is in order, an abort has been carried out, and keys agree if OAEP never decrypts to a wrong
   message.  If the run began in a good store, and others are polite, the store is still good and
   validated files are kept.  If there are no others, the store and the answers are those of the client's packets handled in a row.
   */
  ghost predicate Sound(x: Setting, from: Origin, w: World) {
    && LogOk(x.cfg, w.log)
    && AbortDone(x, w.log, w.server)
    && (x.crypto.NeverWrong() ==> forall uid :: KeyGuarded(x, w, uid))
    && (from.good ==> Polite(x) && Inv(w.server) && forall uid :: FileGuarded(x, w, uid))
    && (Solo(x) && x.Valid() ==> exists run :: Traces(x, from.store, w, run))
  }

  /** A client that has sent nothing yet. */
  lemma SoundAtStart(x: Setting, from: Origin, w: World)
    requires w.log == [] && from.store == w.server && (from.good ==> Polite(x) && Inv(w.server))
    ensures Sound(x, from, w)
  {
    hide Inv, Polite;
    if x.Valid() {
      assert Answers(w.log) == [];
      assert Traces(x, from.store, w, []);
    }
  }

  // ---- one packet --------------------------------------------------------------------------------

  /** What the client's own packet does, seen from one uuid's disk. */
  lemma HandleKeeps(x: Setting, w: World, st: Store, code: nat, draw: Draw, e: Entry, uid: Bytes)
    requires x.Valid() && Build(x, w.client, code).Some?
    requires code == REGISTER || code == S_PUBLIC_KEY || code == RECONNECT || code == VALID_CRC
    requires e.code == code && Kept(x.cfg, w.log, st, uid)
    ensures Kept(x.cfg, w.log + [e], Handle(x.crypto, st, Outgoing(x, w, code), draw).0, uid)
  {
    hide Handle, OnDisk, Validated, FilesStay, Build;
    LastOf(w.log, e);
    HandleFilesStay(x.crypto, st, Outgoing(x, w, code), draw);
    if OnDisk(x.cfg, st, uid) {
      OnDiskStays(x.cfg, st, Handle(x.crypto, st, Outgoing(x, w, code), draw).0, uid);
    }
  }

  lemma UploadKeeps(x: Setting, w: World, st: Store, draw: Draw, e: Entry, uid: Bytes)
    requires x.Valid() && Build(x, w.client, SEND_FILE).Some?
    requires e.code == SEND_FILE && e.uid == Outgoing(x, w, SEND_FILE).clientID
    requires e.answer == Handle(x.crypto, st, Outgoing(x, w, SEND_FILE), draw).1
    ensures Kept(x.cfg, w.log + [e], Handle(x.crypto, st, Outgoing(x, w, SEND_FILE), draw).0, uid)
  {
    hide EncryptedFile, OnDisk, Matches, Build, Garble, Slice, NameField;
    LastOf(w.log, e);
    if Validated(x.cfg, e) {
      var req := Outgoing(x, w, SEND_FILE);
      GarbledName(x, w);
      UploadStores(x.crypto, x.cfg, st, req.clientID, req.payload);
    }
  }

  /** An abort is sent only when the latest upload is not validated. */
  lemma AbortKeeps(cfg: Config, log: Log, e: Entry, st: Store, uid: Bytes)
    requires ThreeFailures(cfg, log) && e.code == EXIT_CRC
    ensures Kept(cfg, log + [e], st, uid)
  {
    hide OnDisk, Validated;
    LastOf(log, e);
    assert log[|log| - 4 + 2 * 1 + 1].code == SEND_FILE;
  }

  lemma OthersKeepFile(x: Setting, w: World, uid: Bytes)
    requires Ready(x, w) && Polite(x) && Inv(w.server) && FileGuarded(x, w, uid) && Alone(x, uid)
    ensures Kept(x.cfg, w.log, Meanwhile(x, w), uid)
  {
    hide Inv, Run, OnDisk, Validated, Ready, TerminatesName, ViewOf;
    ReadyValid(x, w);
    if OnDisk(x.cfg, w.server, uid) {
      OnDiskRegistered(x.cfg, w.server, uid);
      ForeignRun(x.crypto, w.server, x.turns(|w.log|).others, uid);
      OnDiskStays(x.cfg, w.server, Meanwhile(x, w), uid);
    }
  }

  /** Others do not touch this client's row, whatever the store is like. */
  lemma OthersKeepKey(x: Setting, w: World, uid: Bytes)
    requires Ready(x, w) && KeyGuarded(x, w, uid) && Alone(x, uid)
    ensures KeysAgree(w.log, w.client, Meanwhile(x, w), uid)
  {
    hide Run, Ready, KeyAccepted;
    ReadyValid(x, w);
    if uid in w.server.clients {
      ForeignRowRun(x.crypto, w.server, x.turns(|w.log|).others, uid);
    }
  }

  lemma ReadyValid(x: Setting, w: World)
    requires Ready(x, w)
    ensures x.Valid() && |w.client.clientID| == UID_SIZE
  {
    hide Sized, Setting.Sane, Setting.Valid;
  }

  lemma OnDiskRegistered(cfg: Config, st: Store, uid: Bytes)
    requires OnDisk(cfg, st, uid)
    ensures uid in st.clients
  {
  }

  /** What the client's own packet does to the agreement of keys. */
  lemma KeysKept(x: Setting, w: World, st: Store, req: Request, draw: Draw, e: Entry, uid: Bytes)
    requires x.Valid() && x.crypto.NeverWrong() && Known(req.code) && req.code != N_VALID_CRC
    requires |req.clientID| == UID_SIZE && req.version == VERSION
    requires KeysAgree(w.log, w.client, st, uid)
    requires Handle(x.crypto, st, req, draw).1.Some?
    requires var a := Handle(x.crypto, st, req, draw).1.value;
      var (cs', ok) := Process(x, w.client.(clientID := req.clientID, response := a), a);
      e == Entry(req.code, req.clientID, Some(a), ok, cs'.crcValid)
    ensures var (st', a) := Handle(x.crypto, st, req, draw);
      var (cs', ok) := Process(x, w.client.(clientID := req.clientID, response := a.value), a.value);
      KeysAgree(w.log + [e], cs', st', uid)
  {
    hide Handle, Process, Crypto.NeverWrong;
    var (st', a) := Handle(x.crypto, st, req, draw);
    var cs := w.client.(clientID := req.clientID, response := a.value);
    LastOf(w.log, e);
    if req.code == S_PUBLIC_KEY || req.code == RECONNECT {
      KeyExchanged(x, st, req, draw, cs);
    } else {
      AnswersAre(x.crypto, st, req, draw);
      ProcessKeepsKey(x, cs, a.value);
      if uid in st.clients {
        KeysStay(x.crypto, st, req, draw, uid);
      }
    }
  }

  /** What the client's own packet does to its file on disk. */
  lemma DiskKept(x: Setting, w: World, st: Store, code: nat, draw: Draw, e: Entry, uid: Bytes)
    requires x.Valid() && Known(code) && code != N_VALID_CRC && Build(x, w.client, code).Some?
    requires e.code == code && e.uid == Outgoing(x, w, code).clientID
    requires e.answer == Handle(x.crypto, st, Outgoing(x, w, code), draw).1
    requires Kept(x.cfg, w.log, st, uid) && MaySend(x.cfg, w.log, code)
    ensures Kept(x.cfg, w.log + [e], Handle(x.crypto, st, Outgoing(x, w, code), draw).0, uid)
  {
    hide Handle, Kept, Build, ThreeFailures, LastUploadValidated, Garble;
    if code == SEND_FILE {
      UploadKeeps(x, w, st, draw, e, uid);
    } else if code == EXIT_CRC {
      AbortKeeps(x.cfg, w.log, e, Handle(x.crypto, st, Outgoing(x, w, code), draw).0, uid);
    } else {
      HandleKeeps(x, w, st, code, draw, e, uid);
    }
  }

  lemma OwnTerminates(x: Setting, w: World, code: nat)
    requires x.Valid() && Build(x, w.client, code).Some?
    ensures TerminatesName(Outgoing(x, w, code)) && Outgoing(x, w, code).version == VERSION
    ensures Outgoing(x, w, code).code == code
  {
    hide EncryptedPayload, NameField, Sendable;
  }

  lemma OwnId(x: Setting, w: World, code: nat)
    requires Ready(x, w) && Known(code) && Build(x, w.client, code).Some?
    ensures |Outgoing(x, w, code).clientID| == UID_SIZE
  {
    hide EncryptedPayload, NameField, Sendable, Sized, Setting.Sane;
  }

  /** One exchange that is answered keeps keys. */
  lemma DirectKeepsKeys(x: Setting, w: World, code: nat)
    requires Ready(x, w) && Known(code) && code != N_VALID_CRC && Build(x, w.client, code).Some?
    requires x.crypto.NeverWrong()
    requires Handle(x.crypto, Meanwhile(x, w), Outgoing(x, w, code), x.turns(|w.log|).draw).1.Some?
    ensures forall uid :: KeyGuarded(x, w, uid) ==> KeyGuarded(x, Direct(x, w, code).w, uid)
  {
    hide Handle, Process, Build, Run, KeysAgree, Alone, Ready, Meanwhile, Outgoing, Crypto.NeverWrong;
    ReadyValid(x, w);
    var e := Direct(x, w, code).w.log[|w.log|];
    OwnTerminates(x, w, code);
    OwnId(x, w, code);
    forall uid | KeyGuarded(x, w, uid) ensures KeyGuarded(x, Direct(x, w, code).w, uid) {
      if Alone(x, uid) {
        OthersKeepKey(x, w, uid);
        KeysKept(x, w, Meanwhile(x, w), Outgoing(x, w, code), x.turns(|w.log|).draw, e, uid);
      }
    }
  }

  /** One exchange that is answered keeps files. */
  lemma DirectKeepsFiles(x: Setting, w: World, code: nat)
    requires Ready(x, w) && Known(code) && code != N_VALID_CRC && Build(x, w.client, code).Some?
    requires Polite(x) && Inv(w.server) && MaySend(x.cfg, w.log, code)
    requires Handle(x.crypto, Meanwhile(x, w), Outgoing(x, w, code), x.turns(|w.log|).draw).1.Some?
    ensures Inv(Direct(x, w, code).w.server)
    ensures forall uid :: FileGuarded(x, w, uid) ==> FileGuarded(x, Direct(x, w, code).w, uid)
  {
    hide Handle, Process, Build, Inv, Run, Kept, MaySend, Alone, Ready, TerminatesName, Meanwhile, Outgoing;
    ReadyValid(x, w);
    var st := Meanwhile(x, w);
    var turn := x.turns(|w.log|);
    var e := Direct(x, w, code).w.log[|w.log|];
    OwnTerminates(x, w, code);
    OthersKeepInv(x, w);
    InvStep(x.crypto, st, Event(Outgoing(x, w, code), turn.draw));
    forall uid | FileGuarded(x, w, uid) ensures FileGuarded(x, Direct(x, w, code).w, uid) {
      if Alone(x, uid) {
        OthersKeepFile(x, w, uid);
        DiskKept(x, w, st, code, turn.draw, e, uid);
      }
    }
  }

  lemma OthersKeepInv(x: Setting, w: World)
    requires Ready(x, w) && Polite(x) && Inv(w.server)
    ensures Inv(Meanwhile(x, w))
  {
    hide Inv, Run, Ready, TerminatesName;
    ReadyValid(x, w);
    InvAlways(x.crypto, w.server, x.turns(|w.log|).others);
  }

  /** A 901 only waits on the wire. */
  lemma RejectionKeepsKeys(x: Setting, w: World)
    requires Ready(x, w)
    ensures var w' := Send(x, w, N_VALID_CRC).w;
      forall uid :: KeyGuarded(x, w, uid) ==> KeyGuarded(x, w', uid)
  {
    hide Run, Ready, Alone, ExchangeOk, KeyAccepted, Meanwhile;
    var w' := Send(x, w, N_VALID_CRC).w;
    ReadyValid(x, w);
    RejectionShape(x, w);
    RejectionLog(w.log, w'.log);
    forall uid | KeyGuarded(x, w, uid) ensures KeyGuarded(x, w', uid) {
      if Alone(x, uid) {
        OthersKeepKey(x, w, uid);
      }
    }
  }

  lemma RejectionKeepsFiles(x: Setting, w: World)
    requires Ready(x, w) && Polite(x) && Inv(w.server)
    ensures var w' := Send(x, w, N_VALID_CRC).w;
      Inv(w'.server) && forall uid :: FileGuarded(x, w, uid) ==> FileGuarded(x, w', uid)
  {
    hide Inv, Run, Ready, Alone, ExchangeOk, OnDisk, Validated, Meanwhile;
    var w' := Send(x, w, N_VALID_CRC).w;
    ReadyValid(x, w);
    OthersKeepInv(x, w);
    RejectionShape(x, w);
    RejectionLog(w.log, w'.log);
    forall uid | FileGuarded(x, w, uid) ensures FileGuarded(x, w', uid) {
      if Alone(x, uid) {
        OthersKeepFile(x, w, uid);
      }
    }
  }

  lemma RejectionShape(x: Setting, w: World)
    requires Ready(x, w)
    ensures var w' := Send(x, w, N_VALID_CRC).w;
      && w'.server == Meanwhile(x, w) && |w'.log| == |w.log| + 1 && w.log < w'.log
      && w'.log[|w.log|].code == N_VALID_CRC && w'.client.key == w.client.key
      && Build(x, w.client, N_VALID_CRC).Some? && w'.log[|w.log|].answer.None?
      && w'.log[|w.log|].uid == Outgoing(x, w, N_VALID_CRC).clientID
  {
    hide Run, ExchangeOk, Sized;
  }

  lemma RejectionLog(log: Log, log': Log)
    requires log < log' && |log'| == |log| + 1 && log'[|log|].code == N_VALID_CRC
    ensures LastKey(log') == LastKey(log) && LastUpload(log') == LastUpload(log)
  {
    assert log' == log + [log'[|log|]];
    LastOf(log, log'[|log|]);
  }

  // ---- the step of the invariant -------------------------------------------------------------------

  /** Key agreement needs neither a good store nor anything of others but to leave the uuid alone. */
  lemma KeysSent(x: Setting, w: World, code: nat)
    requires Ready(x, w) && Known(code) && x.crypto.NeverWrong()
    ensures forall uid :: KeyGuarded(x, w, uid) ==> KeyGuarded(x, Send(x, w, code).w, uid)
  {
    hide KeyGuarded, Ready, ExchangeOk, Direct, Build, Crypto.NeverWrong;
    if code == N_VALID_CRC {
      RejectionKeepsKeys(x, w);
    } else {
      ReadyValid(x, w);
      if Build(x, w.client, code).Some? {
        ExchangeIsDirect(x, w, code);
        DirectKeepsKeys(x, w, code);
      }
    }
  }

  lemma FilesSent(x: Setting, w: World, code: nat)
    requires Ready(x, w) && Known(code) && MaySend(x.cfg, w.log, code)
    requires Polite(x) && Inv(w.server)
    ensures var w' := Send(x, w, code).w;
      Inv(w'.server) && forall uid :: FileGuarded(x, w, uid) ==> FileGuarded(x, w', uid)
  {
    hide Inv, MaySend, FileGuarded, Ready, ExchangeOk, Polite, Direct, Build;
    if code == N_VALID_CRC {
      RejectionKeepsFiles(x, w);
    } else {
      ReadyValid(x, w);
      if Build(x, w.client, code).Some? {
        ExchangeIsDirect(x, w, code);
        DirectKeepsFiles(x, w, code);
      }
    }
  }

  /** One more event, one more entry. */
  lemma TraceMore(x: Setting, start: Store, w: World, run: seq<Event>, e: Event, w': World)
    requires x.Valid() && Traces(x, start, w, run)
    requires e.request.version == VERSION && Known(e.request.code)
    requires |w'.log| == |w.log| + 1 && w.log < w'.log
    requires var entry := w'.log[|w.log|];
      && entry.code == e.request.code && entry.uid == e.request.clientID
      && Handle(x.crypto, w.server, e.request, e.draw) == (w'.server, entry.answer)
    ensures Traces(x, start, w', run + [e])
  {
    hide Handle, HandleAll, Known;
    HandleAllAppend(x.crypto, start, run, e);
    assert Answers(w'.log) == Answers(w.log) + [w'.log[|w.log|].answer];
  }

  lemma NobodyElse(x: Setting, w: World)
    requires Solo(x) && x.Valid()
    ensures Meanwhile(x, w) == w.server
  {
  }

  lemma RejectionHandled(x: Setting, st: Store, r: Request, draw: Draw)
    requires x.Valid() && r.version == VERSION && r.code == N_VALID_CRC
    ensures Handle(x.crypto, st, r, draw) == (st, None)
  {
  }

  lemma TraceSent(x: Setting, start: Store, w: World, code: nat, run: seq<Event>)
    requires Ready(x, w) && Known(code) && Solo(x) && x.Valid() && Traces(x, start, w, run)
    ensures exists run' :: Traces(x, start, Send(x, w, code).w, run')
  {
    hide Ready, Handle, Process, Build, Meanwhile, Outgoing, Traces, Known, FlagAfter;
    var w' := Send(x, w, code).w;
    if w'.log != w.log {
      var e: Event;
      NobodyElse(x, w);
      if code == N_VALID_CRC {
        RejectionShape(x, w);
        e := Event(Outgoing(x, w, code), x.turns(|w.log|).draw);
        OwnTerminates(x, w, code);
        RejectionHandled(x, w.server, e.request, e.draw);
      } else {
        SentIsBuilt(x, w, code);
        e := Event(Outgoing(x, w, code), x.turns(|w.log|).draw);
        OwnTerminates(x, w, code);
        ExchangeIsDirect(x, w, code);
      }
      TraceMore(x, start, w, run, e, w');
    } else {
      assert w' == w;
    }
  }

  lemma SentIsBuilt(x: Setting, w: World, code: nat)
    requires Ready(x, w) && Known(code) && Send(x, w, code).w.log != w.log
    ensures Build(x, w.client, code).Some?
  {
  }

  lemma OutgoingAbort(x: Setting, w: World)
    requires x.Valid()
    ensures Build(x, w.client, EXIT_CRC).Some?
    ensures Outgoing(x, w, EXIT_CRC) == Request(w.client.clientID, VERSION, EXIT_CRC, NameField(x.cfg))
  {
    hide NameField;
  }

  /** A 902 goes out with the client's own file name, and is carried out at once. */
  lemma AbortArrives(x: Setting, w: World)
    requires Ready(x, w) && Known(EXIT_CRC)
    ensures var w' := Send(x, w, EXIT_CRC).w;
      && |w'.log| == |w.log| + 1 && w'.log[|w.log|].uid == w.client.clientID
      && (x.crypto.validUtf8(NameField(x.cfg)) ==>
            Removed(x.cfg, w'.server, w.client.clientID)
            && w'.log[|w.log|].answer == Some(Reply(MSG_RECEIVED, w.client.clientID)))
  {
    hide Ready, ValidOrAbort, Process, Build, Meanwhile, Outgoing, NameField, ExchangeOk, Removed, Known;
    ReadyValid(x, w);
    OutgoingAbort(x, w);
    ExchangeIsDirect(x, w, EXIT_CRC);
    if x.crypto.validUtf8(NameField(x.cfg)) {
      AbortRemoves(x.crypto, x.cfg, Meanwhile(x, w), w.client.clientID);
    }
  }

  lemma AbortIsDone(x: Setting, w: World, code: nat)
    requires Ready(x, w) && Known(code) && AbortDone(x, w.log, w.server)
    ensures AbortDone(x, Send(x, w, code).w.log, Send(x, w, code).w.server)
  {
    hide Ready, NameField, Removed, FlagAfter, Send, Known;
    if code == EXIT_CRC {
      AbortArrives(x, w);
    }
  }

  /** Every packet that may be sent keeps the invariant. */
  lemma SendSound(x: Setting, from: Origin, w: World, code: nat)
    requires Ready(x, w) && Known(code) && MaySend(x.cfg, w.log, code) && Sound(x, from, w)
    ensures Sound(x, from, Send(x, w, code).w)
  {
    hide Inv, MaySend, KeyGuarded, FileGuarded, Ready, Polite, LogOk, FlagAfter, Crypto.NeverWrong, Solo, Traces, Known;
    hide AbortDone;
    var w' := Send(x, w, code).w;
    AbortIsDone(x, w, code);
    if w'.log != w.log {
      assert w'.log == w.log + [w'.log[|w.log|]];
      LogOkAppend(x.cfg, w.log, w'.log[|w.log|]);
    }
    if x.crypto.NeverWrong() {
      KeysSent(x, w, code);
    }
    if from.good {
      FilesSent(x, w, code);
    }
    if Solo(x) && x.Valid() {
      var run :| Traces(x, from.store, w, run);
      TraceSent(x, from.store, w, code, run);
    }
  }

  /** The client's own variables other than its key play no part. */
  lemma SoundWithClient(x: Setting, from: Origin, w: World, cs: ClientState)
    requires Sound(x, from, w) && cs.key == w.client.key
    ensures Sound(x, from, w.(client := cs))
  {
    hide Inv, LogOk, Polite, Kept, Alone, Crypto.NeverWrong, AbortDone;
    var w' := w.(client := cs);
    if x.crypto.NeverWrong() {
      forall uid ensures KeyGuarded(x, w', uid) {
        assert KeyGuarded(x, w, uid);
      }
    }
    if from.good {
      forall uid ensures FileGuarded(x, w', uid) {
        assert FileGuarded(x, w, uid);
      }
    }
    if Solo(x) && x.Valid() {
      var run :| Traces(x, from.store, w, run);
      assert Traces(x, from.store, w', run);
    }
  }
}
