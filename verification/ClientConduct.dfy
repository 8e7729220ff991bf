/**
 What the client does, as an automaton over its log: which packet comes next, under which uuid, and
 what it makes of the answer.  The operations of Client/Client.cpp are runs of it, to their ends.
 */
module ClientConduct {
  import opened Bytes
  import opened Protocol
  import opened Server
  import opened ServerHistory
  import opened ClientRequests
  import opened ClientModel
  import opened Exchange
  import opened ClientOperations
  import opened ClientLog
  import opened Soundness
  import opened ClientRuns
  import opened EndToEnd

  // ---- the automaton -----------------------------------------------------------------------------

  /** What the client is about to send; the number counts the attempts or the rounds before. */
  datatype Phase =
    | Registering | SigningIn
    | Exchanging(n: int) | Uploading(n: int) | Closing(n: int)
    | Rejecting(n: int) | Repeating(n: int) | Aborting
    | Done | Failed

  function Packet(p: Phase): Option<nat> {
    match p
    case Registering => Some(REGISTER)
    case SigningIn => Some(RECONNECT)
    case Exchanging(_) => Some(S_PUBLIC_KEY)
    case Uploading(_) => Some(SEND_FILE)
    case Closing(_) => Some(VALID_CRC)
    case Rejecting(_) => Some(N_VALID_CRC)
    case Repeating(_) => Some(SEND_FILE)
    case Aborting => Some(EXIT_CRC)
    case _ => None
  }

  predicate Says(e: Entry, code: nat) {
    e.answer.Some? && e.answer.value.code == code
  }

  /** The first attempt is repeated on an error, twice; only the last of three attempts counts then. */
  function AfterAttempt(n: int, failed: bool, again: Phase, onward: Phase): Phase {
    if n == 1 || (n == 0 && failed) then again else if failed then Done else onward
  }

  function NextPhase(p: Phase, e: Entry): Phase {
    if !e.accepted then Failed
    else match p
      case SigningIn => if Says(e, RECONNECT_FAILED) then Registering else Done
      case Exchanging(n) => AfterAttempt(n, Says(e, GENERAL_ERROR), Exchanging(n + 1), Uploading(0))
      case Uploading(n) =>
        AfterAttempt(n, Says(e, GENERAL_ERROR), Uploading(n + 1), if e.crcValid then Closing(0) else Rejecting(0))
      case Closing(n) => AfterAttempt(n, Says(e, GENERAL_ERROR), Closing(n + 1), Done)
      case Rejecting(n) => Repeating(n)
      case Repeating(n) => if e.crcValid then Closing(0) else if n == 0 then Rejecting(1) else Aborting
      case _ => Done
  }

  /** The client's uuid, its two files, and its flags. */
  datatype Standing = Standing(
    id: Bytes, keyFile: Option<Bytes>, meInfo: Option<(Bytes, Bytes)>, registered: bool, crcValid: bool, exited: bool)

  function StandingOf(cs: ClientState): Standing {
    Standing(cs.clientID, cs.keyFile, cs.meInfo, cs.registered, cs.crcValid, cs.exited)
  }

  /** The uuid a packet goes out with: a constant, the one in me.info, or the client's own. */
  function IdFor(s: Standing, code: nat): Bytes {
    if code == REGISTER then IGNORED_ID
    else if code == RECONNECT && s.meInfo.Some? then s.meInfo.value.1
    else s.id
  }

  /** A 1600 is accepted by a client without files, a key only by one with a private key. */
  predicate EntryFits(cfg: Config, s: Standing, e: Entry) {
    && e.uid == IdFor(s, e.code)
    && (e.code == RECONNECT ==> s.meInfo.Some?)
    && e.crcValid == FlagAfter(cfg, s.crcValid, e.answer)
    && (Says(e, REG_SUCCESSFUL) ==>
          e.code == REGISTER && |e.answer.value.payload| == UID_SIZE
          && (e.accepted <==> s.keyFile.None? && s.meInfo.None?))
    && (Says(e, OK_RECONNECT) ==> e.code == RECONNECT)
    && (Says(e, IN_PUBLIC_OUT_AES) || Says(e, OK_RECONNECT) ==> (e.accepted ==> s.keyFile.Some?))
    && (!Says(e, REG_SUCCESSFUL) && !Says(e, IN_PUBLIC_OUT_AES) && !Says(e, OK_RECONNECT) ==> e.accepted)
  }

  /**
   The uuid becomes the one the packet went out with, or the one of an accepted 1600.  A 1600 writes
   the files that do not exist, key.priv first, up to one that does.
   */
  function NextStanding(cfg: Config, s: Standing, e: Entry): Standing {
    var told := Says(e, REG_SUCCESSFUL);
    Standing(
      if told && e.accepted then e.answer.value.payload else e.uid,
      if told && s.keyFile.None? then Some(cfg.privateKey) else s.keyFile,
      if told && e.accepted then Some((cfg.userName, e.answer.value.payload)) else s.meInfo,
      s.registered || (Says(e, OK_RECONNECT) && e.accepted),
      e.crcValid,
      s.exited)
  }

  datatype Stage = Stage(phase: Phase, standing: Standing)

  /** Where a log leads, if every packet of it is the one that was due. */
  function Walk(cfg: Config, at: Stage, log: Log): Option<Stage>
    decreases log
  {
    if log == [] then Some(at)
    else if Packet(at.phase) == Some(log[0].code) && EntryFits(cfg, at.standing, log[0]) then
      Walk(cfg, Stage(NextPhase(at.phase, log[0]), NextStanding(cfg, at.standing, log[0])), log[1..])
    else None
  }

  lemma {:induction false} WalkAppend(cfg: Config, at: Stage, a: Log, b: Log)
    ensures Walk(cfg, at, a + b) ==
            match Walk(cfg, at, a)
            case None => None
            case Some(between) => Walk(cfg, between, b)
    decreases a
  {
    hide Packet, EntryFits, NextPhase, NextStanding;
    if a == [] {
      assert a + b == b;
    } else {
      assert (a + b)[1..] == a[1..] + b;
      WalkAppend(cfg, Stage(NextPhase(at.phase, a[0]), NextStanding(cfg, at.standing, a[0])), a[1..], b);
    }
  }

  /** From one world to another the client went through the automaton, and stands where that says. */
  ghost predicate Conducts(x: Setting, w: World, p: Phase, w': World, p': Phase) {
    && w.log <= w'.log
    && Walk(x.cfg, Stage(p, StandingOf(w.client)), w'.log[|w.log|..]) == Some(Stage(p', StandingOf(w'.client)))
  }

  lemma ConductsNothing(x: Setting, w: World, p: Phase)
    ensures Conducts(x, w, p, w, p)
  {
  }

  lemma ConductsTrans(x: Setting, a: World, p: Phase, b: World, q: Phase, c: World, r: Phase)
    requires Conducts(x, a, p, b, q) && Conducts(x, b, q, c, r)
    ensures Conducts(x, a, p, c, r)
  {
    hide Walk;
    assert c.log[|a.log|..] == b.log[|a.log|..] + c.log[|b.log|..];
    WalkAppend(x.cfg, Stage(p, StandingOf(a.client)), b.log[|a.log|..], c.log[|b.log|..]);
  }

  /** The packet that is due cannot be built. */
  predicate Stuck(cfg: Config, p: Phase, s: Standing) {
    || (Packet(p) == Some(SEND_FILE) && !Sendable(|cfg.file|))
    || (Packet(p) == Some(RECONNECT) && !Readable(s.meInfo))
  }

  /** me.info gives a name of 1 to 255 bytes and a uuid. */
  predicate Readable(info: Option<(Bytes, Bytes)>) {
    info.Some? && 0 < |info.value.0| <= NAME_SIZE && |info.value.1| == UID_SIZE
  }

  // ---- one packet --------------------------------------------------------------------------------

  lemma OneStep(x: Setting, w: World, p: Phase, w': World)
    requires |w'.log| == |w.log| + 1 && w.log < w'.log
    requires Packet(p) == Some(w'.log[|w.log|].code)
    requires EntryFits(x.cfg, StandingOf(w.client), w'.log[|w.log|])
    requires StandingOf(w'.client) == NextStanding(x.cfg, StandingOf(w.client), w'.log[|w.log|])
    ensures Conducts(x, w, p, w', NextPhase(p, w'.log[|w.log|]))
  {
    hide Packet, EntryFits, NextPhase, NextStanding;
    var e := w'.log[|w.log|];
    assert w'.log[|w.log|..] == [e];
    var at := Stage(NextPhase(p, e), NextStanding(x.cfg, StandingOf(w.client), e));
    assert Walk(x.cfg, at, []) == Some(at);
    assert [e][1..] == [];
  }

  lemma SentId(x: Setting, w: World, code: nat)
    requires Ready(x, w) && Known(code) && Build(x, w.client, code).Some?
    ensures var r := Send(x, w, code);
      r.w.log != w.log && r.w.client.clientID == Build(x, w.client, code).value.0
  {
    hide Handle, HandleRequest, Process, Build, Garble, Wire, Run, Receive, Sized, ExchangeOk;
    if code != N_VALID_CRC {
      ExchangeIsDirect(x, w, code);
      var req := Outgoing(x, w, code);
      var a := Handle(x.crypto, Meanwhile(x, w), req, x.turns(|w.log|).draw).1.value;
      ProcessKeepsControl(x, w.client.(clientID := req.clientID, response := a), a);
    }
  }

  /** What the client makes of an answer, as far as its files and its verdict go. */
  lemma ProcessFits(x: Setting, cs: ClientState, resp: Response)
    requires exists code :: resp.code in AnswerCodes(code)
    ensures var (cs', ok) := Process(x, cs, resp); var told := resp.code == REG_SUCCESSFUL;
      && (told ==> (ok <==> cs.keyFile.None? && cs.meInfo.None?))
      && (resp.code in {IN_PUBLIC_OUT_AES, OK_RECONNECT} ==> (ok ==> cs.keyFile.Some?))
      && (!told && resp.code !in {IN_PUBLIC_OUT_AES, OK_RECONNECT} ==> ok)
      && cs'.keyFile == (if told && cs.keyFile.None? then Some(x.cfg.privateKey) else cs.keyFile)
      && cs'.meInfo == (if told && ok then Some((x.cfg.userName, resp.payload)) else cs.meInfo)
  {
    hide Matches;
  }

  /** The standing right after the exchange, before the operation looks at the answer. */
  function Unsettled(cfg: Config, s: Standing, e: Entry): Standing {
    NextStanding(cfg, s, e).(id := e.uid, registered := s.registered)
  }

  lemma DirectFits(x: Setting, w: World, code: nat)
    requires Ready(x, w) && Known(code) && code != N_VALID_CRC && Build(x, w.client, code).Some?
    requires Handle(x.crypto, Meanwhile(x, w), Outgoing(x, w, code), x.turns(|w.log|).draw).1.Some?
    ensures var w' := Direct(x, w, code).w; var e := w'.log[|w.log|];
      && e.crcValid == FlagAfter(x.cfg, w.client.crcValid, e.answer)
      && (Says(e, REG_SUCCESSFUL) ==> code == REGISTER) && (Says(e, OK_RECONNECT) ==> code == RECONNECT)
      && (Says(e, REG_SUCCESSFUL) ==> (e.accepted <==> w.client.keyFile.None? && w.client.meInfo.None?))
      && (Says(e, IN_PUBLIC_OUT_AES) || Says(e, OK_RECONNECT) ==> (e.accepted ==> w.client.keyFile.Some?))
      && (!Says(e, REG_SUCCESSFUL) && !Says(e, IN_PUBLIC_OUT_AES) && !Says(e, OK_RECONNECT) ==> e.accepted)
      && StandingOf(w'.client) == Unsettled(x.cfg, StandingOf(w.client), e)
  {
    hide Ready, Handle, Process, Build, Meanwhile, FlagAfter;
    ReadyValid(x, w);
    var req := Outgoing(x, w, code);
    OwnTerminates(x, w, code);
    var draw := x.turns(|w.log|).draw;
    AnswersAre(x.crypto, Meanwhile(x, w), req, draw);
    var a := Handle(x.crypto, Meanwhile(x, w), req, draw).1.value;
    var cs := w.client.(clientID := req.clientID, response := a);
    ProcessKeepsControl(x, cs, a);
    ProcessFits(x, cs, a);
  }

  /** A packet that can be built is sent, under the uuid that is due, and processed as described. */
  lemma SentFits(x: Setting, w: World, code: nat)
    requires Ready(x, w) && Known(code) && Build(x, w.client, code).Some?
    ensures var w' := Send(x, w, code).w;
      && |w'.log| == |w.log| + 1 && w.log < w'.log
      && var e := w'.log[|w.log|];
        && e.code == code && EntryFits(x.cfg, StandingOf(w.client), e)
        && StandingOf(w'.client) == Unsettled(x.cfg, StandingOf(w.client), e)
  {
    hide Ready, Handle, Process, Meanwhile, Outgoing, Direct, Known, FlagAfter, Send, EncryptedPayload, NameField, Sendable;
    SentId(x, w, code);
    SendIs(x, w, code);
    if code == N_VALID_CRC {
      RejectionFits(x, w);
    } else {
      ExchangeIsDirect(x, w, code);
      DirectFits(x, w, code);
    }
  }

  lemma RejectionFits(x: Setting, w: World)
    requires Ready(x, w)
    ensures var w' := Send(x, w, N_VALID_CRC).w;
      && |w'.log| == |w.log| + 1 && w.log < w'.log
      && var e := w'.log[|w.log|];
        && e == Entry(N_VALID_CRC, w.client.clientID, None, true, w.client.crcValid)
        && StandingOf(w'.client) == StandingOf(w.client)
  {
    hide Run, ExchangeOk, Sized, Setting.Sane;
  }

  // ---- operations ----------------------------------------------------------------------------------

  /** An exception leaves the automaton failed, or stuck before a packet that cannot be built. */
  ghost predicate Throws(x: Setting, w: World, p: Phase, w': World) {
    exists p' :: Conducts(x, w, p, w', p') && (p' == Failed || Stuck(x.cfg, p', StandingOf(w'.client)))
  }

  /** From phase `p` to phase `q`, to an early return, or to an exception. */
  ghost predicate Leads(x: Setting, w: World, p: Phase, r: Result, q: Phase) {
    match r.status
    case Threw => Throws(x, w, p, r.w)
    case Returned(value) => Conducts(x, w, p, r.w, if value then q else Done)
  }

  lemma LeadsThen(x: Setting, w: World, p: Phase, r1: Result, q: Phase, r2: Result, s: Phase)
    requires r1.status == Returned(true) && Leads(x, w, p, r1, q) && Leads(x, r1.w, q, r2, s)
    ensures Leads(x, w, p, r2, s)
  {
    hide Conducts, Stuck;
    if r2.status.Threw? {
      var p' :| Conducts(x, r1.w, q, r2.w, p') && (p' == Failed || Stuck(x.cfg, p', StandingOf(r2.w.client)));
      ConductsTrans(x, w, p, r1.w, q, r2.w, p');
    } else {
      ConductsTrans(x, w, p, r1.w, q, r2.w, if r2.status.value then s else Done);
    }
  }

  lemma NotBuilt(x: Setting, w: World, code: nat, p: Phase)
    requires Ready(x, w) && Known(code) && code != REGISTER && Packet(p) == Some(code)
    requires Build(x, w.client, code).None?
    ensures Stuck(x.cfg, p, StandingOf(w.client)) && Send(x, w, code) == Result(w, Threw)
  {
    hide Ready, Sendable, Setting.Valid;
    ReadyValid(x, w);
    SendIs(x, w, code);
    NothingBuilt(x, w, code);
  }

  lemma Settled(cfg: Config, s: Standing, e: Entry)
    requires EntryFits(cfg, s, e) && e.code != REGISTER && e.code != RECONNECT
    ensures Unsettled(cfg, s, e) == NextStanding(cfg, s, e)
  {
    hide FlagAfter;
  }

  /** One packet of an upload. */
  lemma SendLeads(x: Setting, w: World, code: nat, p: Phase) returns (e: Entry)
    requires Ready(x, w) && Known(code) && code != REGISTER && code != RECONNECT && Packet(p) == Some(code)
    ensures var r := Send(x, w, code);
      && Leads(x, w, p, r, NextPhase(p, e))
      && (r.status.Returned? ==>
            && r.status == Returned(true) && e.accepted && e.crcValid == r.w.client.crcValid
            && (code != N_VALID_CRC ==> (Says(e, GENERAL_ERROR) <==> r.w.client.response.code == GENERAL_ERROR)))
  {
    hide Ready, Known, Packet, EntryFits, Unsettled, FlagAfter, Stuck, Conducts, Build, Send, NextStanding;
    var r := Send(x, w, code);
    ReadyValid(x, w);
    if Build(x, w.client, code).None? {
      e := Entry(code, [], None, false, false);
      NotBuilt(x, w, code, p);
      NothingConducted(x, w, p);
    } else {
      SentFits(x, w, code);
      e := r.w.log[|w.log|];
      Settled(x.cfg, StandingOf(w.client), e);
      OneStep(x, w, p, r.w);
    }
  }

  lemma NothingConducted(x: Setting, w: World, p: Phase)
    requires Stuck(x.cfg, p, StandingOf(w.client))
    ensures Throws(x, w, p, w)
  {
    hide Conducts;
    ConductsNothing(x, w, p);
    assert Conducts(x, w, p, w, p);
  }

  /** The requests that are repeated on an error, and where each goes on. */
  function Attempt(code: nat, n: int): Phase {
    if code == S_PUBLIC_KEY then Exchanging(n) else if code == SEND_FILE then Uploading(n) else Closing(n)
  }

  function Onward(code: nat, crcValid: bool): Phase {
    if code == S_PUBLIC_KEY then Uploading(0)
    else if code == SEND_FILE then if crcValid then Closing(0) else Rejecting(0)
    else Done
  }

  lemma AttemptGoesOn(code: nat, n: int, e: Entry)
    requires code == S_PUBLIC_KEY || code == SEND_FILE || code == VALID_CRC
    ensures Packet(Attempt(code, n)) == Some(code)
    ensures e.accepted ==>
      NextPhase(Attempt(code, n), e) ==
        AfterAttempt(n, Says(e, GENERAL_ERROR), Attempt(code, n + 1), Onward(code, e.crcValid))
  {
  }

  /** A send whose result is looked at again: the status changes, the world does not. */
  lemma LeadsOn(x: Setting, w: World, p: Phase, r: Result, q: Phase, value: bool, q': Phase)
    requires r.status == Returned(true) && Leads(x, w, p, r, q) && q == (if value then q' else Done)
    ensures Leads(x, w, p, Result(r.w, Returned(value)), q')
  {
  }

  lemma ThrowsAnywhere(x: Setting, w: World, p: Phase, r: Result, q: Phase, q': Phase)
    requires r.status.Threw? && Leads(x, w, p, r, q)
    ensures Leads(x, w, p, r, q')
  {
  }

  lemma ErrorResendLeads(x: Setting, w: World, code: nat)
    requires Ready(x, w) && (code == S_PUBLIC_KEY || code == SEND_FILE || code == VALID_CRC)
    ensures Known(code)
    ensures var r := ErrorResend(x, w, code); Leads(x, w, Attempt(code, 1), r, Onward(code, r.w.client.crcValid))
  {
    hide Ready, Leads, NextPhase, Attempt, Onward, Send, ExchangeOk;
    var r1 := Send(x, w, code);
    var r2 := Send(x, r1.w, code);
    var r := ErrorResend(x, w, code);
    var q := Onward(code, r.w.client.crcValid);
    AttemptGoesOn(code, 1, Entry(code, [], None, false, false));
    AttemptGoesOn(code, 2, Entry(code, [], None, false, false));
    var e1 := SendLeads(x, w, code, Attempt(code, 1));
    var e2 := SendLeads(x, r1.w, code, Attempt(code, 2));
    if r1.status.Threw? {
      ThrowsAnywhere(x, w, Attempt(code, 1), r1, NextPhase(Attempt(code, 1), e1), q);
    } else {
      AttemptGoesOn(code, 1, e1);
      LeadsThen(x, w, Attempt(code, 1), r1, Attempt(code, 2), r2, NextPhase(Attempt(code, 2), e2));
      if r2.status.Threw? {
        ThrowsAnywhere(x, w, Attempt(code, 1), r2, NextPhase(Attempt(code, 2), e2), q);
      } else {
        AttemptGoesOn(code, 2, e2);
        LeadsOn(x, w, Attempt(code, 1), r2, NextPhase(Attempt(code, 2), e2), !Says(e2, GENERAL_ERROR), q);
      }
    }
  }

  lemma SendWithResendLeads(x: Setting, w: World, code: nat)
    requires Ready(x, w) && (code == S_PUBLIC_KEY || code == SEND_FILE || code == VALID_CRC)
    ensures Known(code)
    ensures var r := SendWithResend(x, w, code); Leads(x, w, Attempt(code, 0), r, Onward(code, r.w.client.crcValid))
  {
    hide Ready, Leads, NextPhase, Attempt, Onward, Send, ExchangeOk, ErrorResend;
    var r1 := Send(x, w, code);
    var r := SendWithResend(x, w, code);
    var q := Onward(code, r.w.client.crcValid);
    AttemptGoesOn(code, 0, Entry(code, [], None, false, false));
    var e := SendLeads(x, w, code, Attempt(code, 0));
    if r1.status.Threw? {
      ThrowsAnywhere(x, w, Attempt(code, 0), r1, NextPhase(Attempt(code, 0), e), q);
    } else {
      AttemptGoesOn(code, 0, e);
      if Says(e, GENERAL_ERROR) {
        ErrorResendLeads(x, r1.w, code);
        LeadsThen(x, w, Attempt(code, 0), r1, Attempt(code, 1), r, q);
      }
    }
  }

  // ---- rounds ----------------------------------------------------------------------------------------

  /** Where the client stands with `n` rounds left. */
  function RoundPhase(n: int, crcValid: bool): Phase {
    if crcValid then Closing(0) else if n == 0 then Aborting else Rejecting(2 - n)
  }

  lemma RoundGoesOn(n: int, e1: Entry, e2: Entry)
    requires 1 <= n <= 2 && e1.accepted && e2.accepted
    ensures Packet(RoundPhase(n, false)) == Some(N_VALID_CRC)
    ensures Packet(NextPhase(RoundPhase(n, false), e1)) == Some(SEND_FILE)
    ensures NextPhase(NextPhase(RoundPhase(n, false), e1), e2) == RoundPhase(n - 1, e2.crcValid)
  {
  }

  lemma RejectingPacket(n: int)
    requires 1 <= n <= 2
    ensures Packet(RoundPhase(n, false)) == Some(N_VALID_CRC) && Packet(Repeating(2 - n)) == Some(SEND_FILE)
  {
  }

  lemma StaysPut(x: Setting, w: World, p: Phase)
    ensures Leads(x, w, p, Result(w, Returned(true)), p)
  {
    hide Conducts;
    ConductsNothing(x, w, p);
  }

  lemma RejectedNext(n: int, e: Entry)
    requires 1 <= n <= 2 && e.accepted
    ensures NextPhase(RoundPhase(n, false), e) == Repeating(2 - n)
  {
  }

  lemma {:induction false} RoundsLead(x: Setting, w: World, n: nat)
    requires Ready(x, w) && n <= 2
    ensures var r := Rounds(x, w, n);
      Leads(x, w, RoundPhase(n, w.client.crcValid), r, RoundPhase(0, r.w.client.crcValid))
      && (r.status.Returned? ==> r.status == Returned(true))
    decreases n
  {
    hide *;
    KnownCodes();
    if n == 0 || w.client.crcValid {
      RoundsStop(x, w, n);
      StaysPut(x, w, RoundPhase(n, w.client.crcValid));
      FlagSettles(n, w.client.crcValid);
    } else {
      RoundsUnfold(x, w, n);
      RoundLeads(x, w, n);
      var r1 := Send(x, w, N_VALID_CRC);
      var r2 := Send(x, r1.w, SEND_FILE);
      if r1.status.Returned? && r2.status.Returned? {
        RoundsLead(x, r2.w, n - 1);
        var r := Rounds(x, r2.w, n - 1);
        LeadsThen(x, w, RoundPhase(n, false), r2, RoundPhase(n - 1, r2.w.client.crcValid),
          r, RoundPhase(0, r.w.client.crcValid));
      }
    }
  }

  lemma FlagSettles(n: nat, crcValid: bool)
    requires n == 0 || crcValid
    ensures RoundPhase(n, crcValid) == RoundPhase(0, crcValid)
  {
  }

  lemma RoundLeads(x: Setting, w: World, n: nat)
    requires Ready(x, w) && 1 <= n <= 2
    ensures var r1 := Send(x, w, N_VALID_CRC); var r2 := Send(x, r1.w, SEND_FILE);
      && (r1.status.Threw? ==> Leads(x, w, RoundPhase(n, false), r1, RoundPhase(0, r1.w.client.crcValid)))
      && (r1.status.Returned? && r2.status.Threw? ==>
            Leads(x, w, RoundPhase(n, false), r2, RoundPhase(0, r2.w.client.crcValid)))
      && (r1.status.Returned? && r2.status.Returned? ==>
            && r2.status == Returned(true)
            && Leads(x, w, RoundPhase(n, false), r2, RoundPhase(n - 1, r2.w.client.crcValid)))
  {
    hide *;
    KnownCodes();
    var p := RoundPhase(n, false);
    RejectingPacket(n);
    var r1 := Send(x, w, N_VALID_CRC);
    var r2 := Send(x, r1.w, SEND_FILE);
    OtherCodes();
    var e1 := SendLeads(x, w, N_VALID_CRC, p);
    var e2 := SendLeads(x, r1.w, SEND_FILE, Repeating(2 - n));
    if r1.status.Threw? {
      ThrowsAnywhere(x, w, p, r1, NextPhase(p, e1), RoundPhase(0, r1.w.client.crcValid));
    } else {
      RejectedNext(n, e1);
      LeadsThen(x, w, p, r1, Repeating(2 - n), r2, NextPhase(Repeating(2 - n), e2));
      if r2.status.Threw? {
        ThrowsAnywhere(x, w, p, r2, NextPhase(Repeating(2 - n), e2), RoundPhase(0, r2.w.client.crcValid));
      } else {
        RoundGoesOn(n, e1, e2);
      }
    }
  }

  lemma OtherCodes()
    ensures {N_VALID_CRC, SEND_FILE, EXIT_CRC, S_PUBLIC_KEY, VALID_CRC} !! {REGISTER, RECONNECT}
    ensures SEND_FILE != N_VALID_CRC && EXIT_CRC != N_VALID_CRC
  {
  }

  // ---- uploads -----------------------------------------------------------------------------------------

  lemma ResendLeads(x: Setting, w: World)
    requires Ready(x, w) && !w.client.crcValid
    ensures var r := ResendEncryptedMessage(x, w);
      Leads(x, w, Rejecting(0), r, Closing(0))
  {
    hide Ready, Leads, NextPhase, Send, ExchangeOk, Rounds;
    KnownCodes();
    RoundsLead(x, w, 2);
    var r := Rounds(x, w, 2);
    if r.status.Threw? {
      ThrowsAnywhere(x, w, Rejecting(0), r, RoundPhase(0, r.w.client.crcValid), Closing(0));
    } else if !r.w.client.crcValid {
      var r' := Send(x, r.w, EXIT_CRC);
      var e := SendLeads(x, r.w, EXIT_CRC, Aborting);
      LeadsThen(x, w, Rejecting(0), r, Aborting, r', NextPhase(Aborting, e));
      if r'.status.Threw? {
        ThrowsAnywhere(x, w, Rejecting(0), r', NextPhase(Aborting, e), Closing(0));
      } else {
        AbortEnds(e);
        LeadsOn(x, w, Rejecting(0), r', Done, false, Closing(0));
      }
    }
  }

  lemma AbortEnds(e: Entry)
    requires e.accepted
    ensures NextPhase(Aborting, e) == Done
  {
  }

  function FirstPhase(op: Operation, registered: bool): Phase {
    match op
    case DoRegister => Registering
    case DoSignIn => SigningIn
    case DoUpload => if registered then Uploading(0) else Exchanging(0)
  }

  lemma KeyPhaseLeads(x: Setting, w: World)
    requires Ready(x, w)
    ensures Leads(x, w, FirstPhase(DoUpload, w.client.registered), KeyPhase(x, w), Uploading(0))
  {
    hide Ready, Leads, SendWithResend;
    if w.client.registered {
      StaysPut(x, w, Uploading(0));
    } else {
      SendWithResendLeads(x, w, S_PUBLIC_KEY);
    }
  }

  lemma FilePhaseLeads(x: Setting, w: World)
    requires Ready(x, w)
    ensures Leads(x, w, Uploading(0), FilePhase(x, w), Closing(0))
  {
    hide Ready, Leads, SendWithResend, ResendEncryptedMessage;
    var r := SendWithResend(x, w, SEND_FILE);
    SendWithResendLeads(x, w, SEND_FILE);
    if Continues(r) && !r.w.client.crcValid {
      ResendLeads(x, r.w);
      LeadsThen(x, w, Uploading(0), r, Rejecting(0), ResendEncryptedMessage(x, r.w), Closing(0));
    } else if !Continues(r) {
      StoppedAnywhere(x, w, Uploading(0), r, Onward(SEND_FILE, r.w.client.crcValid), Closing(0));
    }
  }

  lemma StoppedAnywhere(x: Setting, w: World, p: Phase, r: Result, q: Phase, q': Phase)
    requires !Continues(r) && Leads(x, w, p, r, q)
    ensures Leads(x, w, p, r, q')
  {
  }

  lemma UploadBodyLeads(x: Setting, w: World)
    requires Ready(x, w)
    ensures Leads(x, w, FirstPhase(DoUpload, w.client.registered), UploadBody(x, w), Done)
  {
    hide Ready, Leads, SendWithResend, KeyPhase, FilePhase;
    var p := FirstPhase(DoUpload, w.client.registered);
    KeyPhaseLeads(x, w);
    var r1 := KeyPhase(x, w);
    if !Continues(r1) {
      StoppedAnywhere(x, w, p, r1, Uploading(0), Done);
    } else {
      FilePhaseLeads(x, r1.w);
      var r2 := FilePhase(x, r1.w);
      LeadsThen(x, w, p, r1, Uploading(0), r2, Closing(0));
      if !Continues(r2) {
        StoppedAnywhere(x, w, p, r2, Closing(0), Done);
      } else {
        SendWithResendLeads(x, r2.w, VALID_CRC);
        LeadsThen(x, w, p, r2, Closing(0), SendWithResend(x, r2.w, VALID_CRC), Done);
      }
    }
  }

  // ---- every operation ----------------------------------------------------------------------------------

  /** Nothing more is due, or what is due cannot be built. */
  predicate AtEnd(cfg: Config, p: Phase, s: Standing) {
    p == Done || p == Failed || Stuck(cfg, p, s)
  }

  function Running(w: World): World {
    w.(client := w.client.(exited := false))
  }

  /**
   The operation goes through the automaton to its end, and stands where that says; but for an upload
   that ends otherwise than done, which ends the program.
   */
  ghost predicate Performs(x: Setting, w: World, op: Operation, w': World) {
    exists p' ::
      && Conducts(x, w, FirstPhase(op, w.client.registered), Running(w'), p')
      && AtEnd(x.cfg, p', StandingOf(w'.client))
      && (w'.client.exited <==> op == DoUpload && p' != Done)
  }

  lemma {:induction false} WalkKeepsExited(cfg: Config, at: Stage, log: Log)
    requires Walk(cfg, at, log).Some?
    ensures Walk(cfg, at, log).value.standing.exited == at.standing.exited
    decreases log
  {
    hide EntryFits, NextPhase, Packet;
    if log != [] {
      WalkKeepsExited(cfg, Stage(NextPhase(at.phase, log[0]), NextStanding(cfg, at.standing, log[0])), log[1..]);
    }
  }

  lemma ConductKeepsExited(x: Setting, w: World, p: Phase, w': World, p': Phase)
    requires Conducts(x, w, p, w', p')
    ensures w'.client.exited == w.client.exited
  {
    hide Walk;
    WalkKeepsExited(x.cfg, Stage(p, StandingOf(w.client)), w'.log[|w.log|..]);
  }

  lemma UploadPerforms(x: Setting, w: World)
    requires Ready(x, w) && !w.client.exited
    ensures Performs(x, w, DoUpload, UploadFile(x, w))
  {
    hide Ready, UploadBody, Conducts, Stuck;
    UploadBodyLeads(x, w);
    var r := UploadBody(x, w);
    var p := FirstPhase(DoUpload, w.client.registered);
    if r.status.Threw? {
      var p' :| Conducts(x, w, p, r.w, p') && (p' == Failed || Stuck(x.cfg, p', StandingOf(r.w.client)));
      ConductKeepsExited(x, w, p, r.w, p');
      StuckAnyway(x.cfg, p', StandingOf(r.w.client), StandingOf(UploadFile(x, w).client));
      assert Running(UploadFile(x, w)) == r.w;
    } else {
      ConductKeepsExited(x, w, p, r.w, Done);
      assert Running(UploadFile(x, w)) == r.w;
    }
  }

  lemma StuckAnyway(cfg: Config, p: Phase, s: Standing, s': Standing)
    requires (p == Failed || Stuck(cfg, p, s)) && s'.meInfo == s.meInfo
    ensures (p == Failed || Stuck(cfg, p, s')) && p != Done
  {
  }

  /** Where one packet leads when nothing but the uuid and the flag may be unsettled. */
  lemma StepSettled(x: Setting, w: World, p: Phase, r: World, w': World)
    requires |r.log| == |w.log| + 1 && w.log < r.log && w'.log == r.log
    requires Packet(p) == Some(r.log[|w.log|].code)
    requires EntryFits(x.cfg, StandingOf(w.client), r.log[|w.log|])
    requires StandingOf(w'.client) == NextStanding(x.cfg, StandingOf(w.client), r.log[|w.log|])
    ensures Conducts(x, w, p, w', NextPhase(p, r.log[|w.log|]))
  {
    hide Packet, EntryFits, NextPhase, NextStanding, Conducts;
    OneStep(x, w, p, w');
  }

  lemma RegistrationBuilt(x: Setting, w: World)
    requires Ready(x, w)
    ensures Build(x, w.client, REGISTER).Some? && Known(REGISTER) && Known(RECONNECT)
  {
    hide Sized, Setting.Sane, Setting.Valid;
  }

  /** An accepted 1600 gives the client the uuid, any other answer leaves it the one it sent. */
  lemma RegisterSettles(x: Setting, w: World)
    requires Ready(x, w) && Known(REGISTER)
    ensures var r := Send(x, w, REGISTER); var w' := RegisterNewClient(x, w);
      && |r.w.log| == |w.log| + 1 && w.log < r.w.log && w'.log == r.w.log
      && var e := r.w.log[|w.log|];
        && e.code == REGISTER && EntryFits(x.cfg, StandingOf(w.client), e)
        && StandingOf(w'.client) == NextStanding(x.cfg, StandingOf(w.client), e)
  {
    hide Ready, Build, Send, FlagAfter;
    RegistrationBuilt(x, w);
    SentFits(x, w, REGISTER);
    var r := Send(x, w, REGISTER);
    SentAnswer(x, w, REGISTER);
    var e := r.w.log[|w.log|];
    if Says(e, REG_SUCCESSFUL) {
      assert e.answer.value.payload[..UID_SIZE] == e.answer.value.payload;
    }
  }

  /** Status and response are those of the entry. */
  lemma SentAnswer(x: Setting, w: World, code: nat)
    requires Ready(x, w) && Known(code) && code != N_VALID_CRC && Build(x, w.client, code).Some?
    ensures var r := Send(x, w, code);
      && |r.w.log| == |w.log| + 1
      && var e := r.w.log[|w.log|];
        && e.answer == Some(r.w.client.response) && r.status == (if e.accepted then Returned(true) else Threw)
  {
    hide Ready, Build, Send, FlagAfter;
    SentId(x, w, code);
  }

  lemma RegisterConducts(x: Setting, w: World) returns (p: Phase)
    requires Ready(x, w)
    ensures Conducts(x, w, Registering, RegisterNewClient(x, w), p)
    ensures p == Done || p == Failed
  {
    hide Ready, Build, Send, FlagAfter, RegisterNewClient, EntryFits, NextStanding, Conducts;
    RegistrationBuilt(x, w);
    RegisterSettles(x, w);
    var r := Send(x, w, REGISTER);
    p := NextPhase(Registering, r.w.log[|w.log|]);
    StepSettled(x, w, Registering, r.w, RegisterNewClient(x, w));
  }

  lemma RegisterPerforms(x: Setting, w: World)
    requires Ready(x, w) && !w.client.exited
    ensures Performs(x, w, DoRegister, RegisterNewClient(x, w))
  {
    hide Ready, RegisterNewClient, Conducts, Stuck;
    var w' := RegisterNewClient(x, w);
    var p := RegisterConducts(x, w);
    ConductKeepsExited(x, w, Registering, w', p);
    assert Running(w') == w';
    assert Conducts(x, w, FirstPhase(DoRegister, w.client.registered), Running(w'), p);
  }

  /** A sign-in that is not refused: an accepted key makes the client a registered one. */
  lemma SignInSettles(x: Setting, w: World)
    requires Ready(x, w) && Known(RECONNECT) && Build(x, w.client, RECONNECT).Some?
    ensures var r := Send(x, w, RECONNECT); var w' := SignInClient(x, w);
      && |r.w.log| == |w.log| + 1 && w.log < r.w.log
      && var e := r.w.log[|w.log|];
        && e.code == RECONNECT && EntryFits(x.cfg, StandingOf(w.client), e)
        && if Says(e, RECONNECT_FAILED) then
             && e.accepted && w' == RegisterNewClient(x, r.w)
             && StandingOf(r.w.client) == NextStanding(x.cfg, StandingOf(w.client), e)
           else
             w'.log == r.w.log && StandingOf(w'.client) == NextStanding(x.cfg, StandingOf(w.client), e)
  {
    hide Ready, Build, Send, FlagAfter, RegisterNewClient;
    SentFits(x, w, RECONNECT);
    SentAnswer(x, w, RECONNECT);
  }

  lemma SignInConducts(x: Setting, w: World) returns (p: Phase)
    requires Ready(x, w)
    ensures Conducts(x, w, SigningIn, SignInClient(x, w), p)
    ensures p == Done || p == Failed || Stuck(x.cfg, p, StandingOf(SignInClient(x, w).client))
  {
    hide Ready, Build, Send, FlagAfter, RegisterNewClient, SignInClient, EntryFits, NextStanding, Conducts, Stuck;
    RegistrationBuilt(x, w);
    ReadyValid(x, w);
    var w' := SignInClient(x, w);
    if Build(x, w.client, RECONNECT).None? {
      NotBuilt(x, w, RECONNECT, SigningIn);
      SignInFails(x, w);
      p := SigningIn;
      ConductsNothing(x, w, p);
    } else {
      SignInSettles(x, w);
      var r := Send(x, w, RECONNECT);
      var e := r.w.log[|w.log|];
      p := NextPhase(SigningIn, e);
      if Says(e, RECONNECT_FAILED) {
        StepSettled(x, w, SigningIn, r.w, r.w);
        p := RegisterConducts(x, r.w);
        ConductsTrans(x, w, SigningIn, r.w, Registering, w', p);
      } else {
        StepSettled(x, w, SigningIn, r.w, w');
      }
    }
  }

  lemma SignInFails(x: Setting, w: World)
    requires Ready(x, w) && Known(RECONNECT) && Send(x, w, RECONNECT) == Result(w, Threw)
    ensures SignInClient(x, w) == w
  {
    hide Ready, Send, RegisterNewClient;
  }

  lemma SignInPerforms(x: Setting, w: World)
    requires Ready(x, w) && !w.client.exited
    ensures Performs(x, w, DoSignIn, SignInClient(x, w))
  {
    hide Ready, SignInClient, Conducts, Stuck;
    var w' := SignInClient(x, w);
    var p := SignInConducts(x, w);
    ConductKeepsExited(x, w, SigningIn, w', p);
    assert Running(w') == w';
    assert Conducts(x, w, FirstPhase(DoSignIn, w.client.registered), Running(w'), p);
  }

  /**
   Every operation of every client that still runs is a run of the automaton to its end; and the program
   ends exactly when an upload fails or cannot be built.  Once it has ended nothing is sent.
   */
  lemma OperationPerforms(x: Setting, w: World, op: Operation)
    requires Ready(x, w)
    ensures if w.client.exited then Perform(x, w, op) == w else Performs(x, w, op, Perform(x, w, op))
  {
    hide Ready, RegisterNewClient, SignInClient, UploadFile, Performs;
    if !w.client.exited {
      match op
      case DoRegister => RegisterPerforms(x, w);
      case DoSignIn => SignInPerforms(x, w);
      case DoUpload => UploadPerforms(x, w);
    }
  }
}
