/**
 What every run of the client says of its uuid, its files and its flags, and what it does when a request
 is refused; all of it read off the log.
 */
module ClientHistory {
  import opened Bytes
  import opened Database
  import opened Protocol
  import opened Server
  import opened ClientRequests
  import opened ClientModel
  import opened Exchange
  import opened ClientOperations
  import opened ClientLog
  import opened Soundness
  import opened EndToEnd
  import opened FirstUpload
  import opened ClientConduct

  // ---- the log determines where the client stands ---------------------------------------------------

  function Replay(cfg: Config, s: Standing, log: Log): Standing
    decreases log
  {
    if log == [] then s
    else NextStanding(cfg, Replay(cfg, s, log[..|log| - 1]), log[|log| - 1])
  }

  /** Every packet fits what the client stood for when it went out. */
  ghost predicate Replays(cfg: Config, s: Standing, log: Log) {
    forall i :: 0 <= i < |log| ==> EntryFits(cfg, Replay(cfg, s, log[..i]), log[i])
  }

  lemma {:induction false} WalkReplays(cfg: Config, at: Stage, log: Log)
    requires Walk(cfg, at, log).Some?
    ensures Replays(cfg, at.standing, log)
    ensures Walk(cfg, at, log).value.standing == Replay(cfg, at.standing, log)
    decreases log
  {
    hide Packet, EntryFits, NextPhase, NextStanding;
    if log != [] {
      var before, last := log[..|log| - 1], log[|log| - 1];
      assert log == before + [last];
      WalkAppend(cfg, at, before, [last]);
      WalkReplays(cfg, at, before);
      assert [last][1..] == [];
      forall i | 0 <= i < |log| ensures EntryFits(cfg, Replay(cfg, at.standing, log[..i]), log[i]) {
        if i < |before| {
          assert log[..i] == before[..i];
          assert EntryFits(cfg, Replay(cfg, at.standing, before[..i]), before[i]);
        }
      }
    }
  }

  lemma {:induction false} ReplayAppend(cfg: Config, s: Standing, a: Log, b: Log)
    ensures Replay(cfg, s, a + b) == Replay(cfg, Replay(cfg, s, a), b)
    decreases b
  {
    hide NextStanding;
    if b == [] {
      assert a + b == a;
    } else {
      assert (a + b)[..|a + b| - 1] == a + b[..|b| - 1];
      ReplayAppend(cfg, s, a, b[..|b| - 1]);
    }
  }

  lemma ReplaysAppend(cfg: Config, s: Standing, a: Log, b: Log)
    requires Replays(cfg, s, a) && Replays(cfg, Replay(cfg, s, a), b)
    ensures Replays(cfg, s, a + b)
  {
    hide EntryFits, Replay;
    var log := a + b;
    forall i | 0 <= i < |log| ensures EntryFits(cfg, Replay(cfg, s, log[..i]), log[i]) {
      if i < |a| {
        assert log[..i] == a[..i];
        assert EntryFits(cfg, Replay(cfg, s, a[..i]), a[i]);
      } else {
        assert log[..i] == a + b[..i - |a|];
        ReplayAppend(cfg, s, a, b[..i - |a|]);
        assert EntryFits(cfg, Replay(cfg, Replay(cfg, s, a), b[..i - |a|]), b[i - |a|]);
      }
    }
  }

  /** From one world to another, the log tells what becomes of the client. */
  ghost predicate Told(x: Setting, w: World, w': World) {
    && w.log <= w'.log
    && var s := StandingOf(Running(w).client); var sent := w'.log[|w.log|..];
      Replays(x.cfg, s, sent) && StandingOf(Running(w').client) == Replay(x.cfg, s, sent)
  }

  lemma ToldNothing(x: Setting, w: World)
    ensures Told(x, w, w)
  {
  }

  lemma ToldTrans(x: Setting, a: World, b: World, c: World)
    requires Told(x, a, b) && Told(x, b, c)
    ensures Told(x, a, c)
  {
    hide Replay, Replays;
    var first, second := b.log[|a.log|..], c.log[|b.log|..];
    assert c.log[|a.log|..] == first + second;
    ReplayAppend(x.cfg, StandingOf(Running(a).client), first, second);
    ReplaysAppend(x.cfg, StandingOf(Running(a).client), first, second);
  }

  lemma OperationTold(x: Setting, w: World, op: Operation)
    requires Ready(x, w)
    ensures Told(x, w, Perform(x, w, op))
  {
    hide Ready, Perform, Walk, Stuck, Replay, Replays;
    OperationPerforms(x, w, op);
    if w.client.exited {
      ToldNothing(x, w);
    } else {
      var w' := Perform(x, w, op);
      var p := FirstPhase(op, w.client.registered);
      var p' :| Conducts(x, w, p, Running(w'), p');
      assert Running(w) == w;
      WalkReplays(x.cfg, Stage(p, StandingOf(w.client)), w'.log[|w.log|..]);
    }
  }

  /**
   Whatever the client does and whatever it is answered, its uuid, its files and its flags are those that
   its log tells, and every packet went out under the uuid that was due then.
   */
  lemma {:induction false} RunTold(x: Setting, w: World, ops: seq<Operation>)
    requires Ready(x, w)
    ensures Told(x, w, RunClient(x, w, ops))
    decreases ops
  {
    hide Ready, Perform, Told;
    if ops == [] {
      ToldNothing(x, w);
    } else {
      OperationTold(x, w, ops[0]);
      RunTold(x, Perform(x, w, ops[0]), ops[1..]);
      ToldTrans(x, w, Perform(x, w, ops[0]), RunClient(x, w, ops));
    }
  }

  // ---- whose uuid ----------------------------------------------------------------------------------------

  /** The packet was a registration or a sign-in under this uuid, or its answer gave the uuid. */
  predicate Gives(e: Entry, uid: Bytes) {
    || (e.code in {REGISTER, RECONNECT} && e.uid == uid)
    || (Says(e, REG_SUCCESSFUL) && e.accepted && e.answer.value.payload == uid)
  }

  ghost predicate OwnUuid(first: Bytes, log: Log, uid: Bytes) {
    uid == first || exists j :: 0 <= j < |log| && Gives(log[j], uid)
  }

  lemma OwnUuidStays(first: Bytes, log: Log, e: Entry, uid: Bytes)
    requires OwnUuid(first, log, uid)
    ensures OwnUuid(first, log + [e], uid)
  {
    hide Gives;
    if j :| 0 <= j < |log| && Gives(log[j], uid) {
      assert (log + [e])[j] == log[j];
    }
  }

  lemma ReplaysPrefix(cfg: Config, s: Standing, log: Log, e: Entry)
    requires Replays(cfg, s, log + [e])
    ensures Replays(cfg, s, log) && EntryFits(cfg, Replay(cfg, s, log), e)
  {
    hide EntryFits, Replay;
    assert (log + [e])[..|log|] == log && (log + [e])[|log|] == e;
    forall i | 0 <= i < |log| ensures EntryFits(cfg, Replay(cfg, s, log[..i]), log[i]) {
      assert log[..i] == (log + [e])[..i] && log[i] == (log + [e])[i];
    }
  }

  lemma {:induction false} ReplayedId(cfg: Config, s: Standing, log: Log)
    requires Replays(cfg, s, log)
    ensures OwnUuid(s.id, log, Replay(cfg, s, log).id)
    decreases log
  {
    hide FlagAfter, Replays;
    if log != [] {
      var before, e := log[..|log| - 1], log[|log| - 1];
      assert log == before + [e];
      ReplaysPrefix(cfg, s, before, e);
      ReplayedId(cfg, s, before);
      OwnUuidStays(s.id, before, e, Replay(cfg, s, before).id);
      assert (before + [e])[|before|] == e;
    }
  }

  lemma {:induction false} PrefixesReplay(cfg: Config, s: Standing, log: Log, i: nat)
    requires Replays(cfg, s, log) && i <= |log|
    ensures Replays(cfg, s, log[..i])
    decreases |log| - i
  {
    hide Replays;
    if i == |log| {
      assert log[..i] == log;
    } else {
      PrefixesReplay(cfg, s, log, i + 1);
      assert log[..i + 1] == log[..i] + [log[i]];
      ReplaysPrefix(cfg, s, log[..i], log[i]);
    }
  }

  /**
   In every run each 826, 828, 900, 901 and 902 carries the uuid the client began with, one that a 1600 of
   the run gave it, or the one an 825 or 827 of the run went out with.  An 825 carries the fixed one, and
   an 827 the one in me.info.
   */
  lemma IdsAreOwn(x: Setting, w: World, ops: seq<Operation>)
    requires Ready(x, w) && w.log == []
    ensures var log := RunClient(x, w, ops).log;
      forall i :: 0 <= i < |log| ==>
        if log[i].code == REGISTER then log[i].uid == IGNORED_ID
        else if log[i].code == RECONNECT then
          var info := Replay(x.cfg, StandingOf(Running(w).client), log[..i]).meInfo;
          info.Some? && log[i].uid == info.value.1
        else OwnUuid(w.client.clientID, log[..i], log[i].uid)
  {
    hide Ready, RunClient, Replay, OwnUuid, FlagAfter;
    RunTold(x, w, ops);
    var log := RunClient(x, w, ops).log;
    assert log[0..] == log;
    var s := StandingOf(Running(w).client);
    forall i | 0 <= i < |log|
      ensures EntryFits(x.cfg, Replay(x.cfg, s, log[..i]), log[i])
      ensures OwnUuid(s.id, log[..i], Replay(x.cfg, s, log[..i]).id)
    {
      PrefixesReplay(x.cfg, s, log, i);
      ReplayedId(x.cfg, s, log[..i]);
    }
  }

  // ---- the client's files and its standing -----------------------------------------------------------------

  /** The packet was answered so, and the client accepted the answer. */
  predicate Accepted(e: Entry, code: nat) {
    Says(e, code) && e.accepted
  }

  /** What may have become of key.priv, of me.info, and of the client's being signed in. */
  ghost predicate FilesTold(cfg: Config, s: Standing, log: Log, s': Standing) {
    && (s.keyFile.Some? ==> s'.keyFile == s.keyFile)
    && (s.keyFile.None? ==> s'.keyFile == if exists j :: 0 <= j < |log| && Says(log[j], REG_SUCCESSFUL)
                                          then Some(cfg.privateKey) else None)
    && (s.meInfo.Some? ==> s'.meInfo == s.meInfo)
    && (s.meInfo.None? && s'.meInfo.Some? ==>
          exists j :: 0 <= j < |log| && Accepted(log[j], REG_SUCCESSFUL)
            && s'.meInfo == Some((cfg.userName, log[j].answer.value.payload)))
    && (s'.meInfo.None? ==> forall j :: 0 <= j < |log| ==> !Accepted(log[j], REG_SUCCESSFUL))
    && (s'.registered <==> s.registered || exists j :: 0 <= j < |log| && Accepted(log[j], OK_RECONNECT))
  }

  lemma FilesToldMore(cfg: Config, s: Standing, log: Log, s1: Standing, e: Entry)
    requires FilesTold(cfg, s, log, s1) && EntryFits(cfg, s1, e)
    ensures FilesTold(cfg, s, log + [e], NextStanding(cfg, s1, e))
  {
    hide FlagAfter;
    var more := log + [e];
    assert more[|log|] == e;
    assert forall j :: 0 <= j < |log| ==> more[j] == log[j];
  }

  lemma {:induction false} ReplayedFiles(cfg: Config, s: Standing, log: Log)
    requires Replays(cfg, s, log)
    ensures FilesTold(cfg, s, log, Replay(cfg, s, log))
    decreases log
  {
    hide EntryFits, NextStanding, Replays;
    if log != [] {
      var before, e := log[..|log| - 1], log[|log| - 1];
      assert log == before + [e];
      ReplaysPrefix(cfg, s, before, e);
      ReplayedFiles(cfg, s, before);
      FilesToldMore(cfg, s, before, Replay(cfg, s, before), e);
    }
  }

  /**
   In every run a key.priv or a me.info that exists is never changed; the run writes them with its first
   1600 only, and a client counts as signed in exactly after an accepted 1605.
   */
  lemma FilesAreKept(x: Setting, w: World, ops: seq<Operation>)
    requires Ready(x, w) && w.log == []
    ensures var w' := RunClient(x, w, ops);
      FilesTold(x.cfg, StandingOf(Running(w).client), w'.log, StandingOf(Running(w').client))
  {
    hide Ready, RunClient, Replay, Replays, FilesTold;
    RunTold(x, w, ops);
    var log := RunClient(x, w, ops).log;
    assert log[0..] == log;
    ReplayedFiles(x.cfg, StandingOf(Running(w).client), log);
  }

  lemma FirstIsAccepted(cfg: Config, s: Standing, log: Log, s': Standing, e: Entry)
    requires FilesTold(cfg, s, log, s') && EntryFits(cfg, s', e) && Says(e, REG_SUCCESSFUL)
    ensures e.accepted <==>
            s.keyFile.None? && s.meInfo.None? && forall j :: 0 <= j < |log| ==> !Says(log[j], REG_SUCCESSFUL)
  {
    hide FlagAfter;
  }

  /** Of all 1600s of a run the client accepts the first only, and that one only if neither file existed. */
  lemma OnlyFirstAccepted(x: Setting, w: World, ops: seq<Operation>)
    requires Ready(x, w) && w.log == []
    ensures var log := RunClient(x, w, ops).log;
      forall i :: 0 <= i < |log| && Says(log[i], REG_SUCCESSFUL) ==>
        (log[i].accepted <==>
          && w.client.keyFile.None? && w.client.meInfo.None?
          && forall j :: 0 <= j < i ==> !Says(log[j], REG_SUCCESSFUL))
  {
    hide Ready, RunClient, Replay, Says, FilesTold, EntryFits, Replays;
    RunTold(x, w, ops);
    var log := RunClient(x, w, ops).log;
    assert log[0..] == log;
    var s := StandingOf(Running(w).client);
    forall i | 0 <= i < |log| && Says(log[i], REG_SUCCESSFUL)
      ensures log[i].accepted <==>
        && s.keyFile.None? && s.meInfo.None? && forall j :: 0 <= j < i ==> !Says(log[j], REG_SUCCESSFUL)
    {
      PrefixesReplay(x.cfg, s, log, i);
      ReplayedFiles(x.cfg, s, log[..i]);
      PrefixesReplay(x.cfg, s, log, i + 1);
      assert log[..i + 1] == log[..i] + [log[i]];
      ReplaysPrefix(x.cfg, s, log[..i], log[i]);
      FirstIsAccepted(x.cfg, s, log[..i], Replay(x.cfg, s, log[..i]), log[i]);
      assert forall j :: 0 <= j < i ==> log[..i][j] == log[j];
    }
  }

  // ---- errors ----------------------------------------------------------------------------------------------

  /** The packets of this code that were sent between two worlds. */
  predicate SentTimes(w: World, w': World, code: nat, n: nat) {
    && |w'.log| == |w.log| + n && w.log <= w'.log
    && forall i :: |w.log| <= i < |w'.log| ==> w'.log[i].code == code
  }

  lemma SentOnce(x: Setting, w: World, code: nat)
    requires Ready(x, w) && Known(code) && code != N_VALID_CRC
    ensures var r := Send(x, w, code);
      r.status.Returned? ==>
        && SentTimes(w, r.w, code, 1) && r.status == Returned(true)
        && r.w.log[|w.log|].answer == Some(r.w.client.response)
  {
    hide Ready, Send, FlagAfter;
  }

  /**
   An error is answered by exactly two more packets of the same code, whatever the first of them brings;
   the caller returns if and only if the last of the three was answered by an error too.  Without an error
   there is one packet.
   */
  lemma ErrorIsResentTwice(x: Setting, w: World, code: nat)
    requires Ready(x, w) && Known(code) && code != N_VALID_CRC
    ensures var r := SendWithResend(x, w, code); var n := |w.log|;
      r.status.Returned? ==>
        && |r.w.log| > n
        && if Says(r.w.log[n], GENERAL_ERROR) then
             SentTimes(w, r.w, code, 3) && (r.status == Returned(false) <==> Says(r.w.log[n + 2], GENERAL_ERROR))
           else
             SentTimes(w, r.w, code, 1) && r.status == Returned(true)
  {
    hide Ready, Send, ExchangeOk;
    SentOnce(x, w, code);
    var r1 := Send(x, w, code);
    SentOnce(x, r1.w, code);
    var r2 := Send(x, r1.w, code);
    SentOnce(x, r2.w, code);
  }

  // ---- registrations that are refused ------------------------------------------------------------------------

  /**
   Unless an 825 is answered by a 1600 that the client accepts, it is left with the uuid the packet went out
   with; and the uuid of a 1601, which is that of another client, is never its own.
   */
  lemma RefusedRegistration(x: Setting, w: World)
    requires Ready(x, w)
    ensures var w' := RegisterNewClient(x, w);
      && |w'.log| == |w.log| + 1
      && var e := w'.log[|w.log|];
        && e.code == REGISTER && e.uid == IGNORED_ID
        && w'.client.clientID == (if Accepted(e, REG_SUCCESSFUL) then e.answer.value.payload else IGNORED_ID)
        && (!Accepted(e, REG_SUCCESSFUL) ==> w'.client.meInfo == w.client.meInfo)
  {
    hide Ready, RegisterNewClient, FlagAfter;
    RegistrationBuilt(x, w);
    RegisterSettles(x, w);
  }

  /** The server enters a new client under the name of transfer.info with a NUL, whatever the client makes of it. */
  lemma RegistrationEnters(x: Setting, w: World)
    requires Ready(x, w) && Registrable(x, w)
    ensures var w' := RegisterNewClient(x, w); var uid := x.turns(|w.log|).draw.uuid;
      uid in w'.server.clients && w'.server.clients[uid].userName == x.cfg.userName + [0]
  {
    hide Ready, Meanwhile, Build, Outgoing, UuidOf, ExchangeOk, IsAscii, Process, Direct;
    KnownCodes();
    OutgoingRegistration(x, w);
    ExchangeIsDirect(x, w, REGISTER);
    EntersRow(x, w);
    SendIs(x, w, REGISTER);
  }

  lemma EntersRow(x: Setting, w: World)
    requires x.Valid() && Registrable(x, w) && Build(x, w.client, REGISTER).Some?
    ensures var w' := Direct(x, w, REGISTER).w; var uid := x.turns(|w.log|).draw.uuid;
      uid in w'.server.clients && w'.server.clients[uid].userName == x.cfg.userName + [0]
  {
    hide Meanwhile, Build, Outgoing, UuidOf, IsAscii, Process, Register;
    OutgoingRegistration(x, w);
    Registers(Meanwhile(x, w), x.cfg.userName, x.turns(|w.log|).draw);
  }

  /**
   A sign-in answered by 1606 is followed by exactly one packet, an 825.  The client has a me.info, so it
   refuses even a 1600: it is left with the uuid of the 825, not signed in by this, and its me.info as it was.
   But the server registers its name anew if that is free.
   */
  lemma RefusedSignInRegisters(x: Setting, w: World)
    requires Ready(x, w)
    requires var r := Send(x, w, RECONNECT); |r.w.log| > |w.log| && Says(r.w.log[|w.log|], RECONNECT_FAILED)
    ensures var w' := SignInClient(x, w); var r := Send(x, w, RECONNECT); var n := |w.log|;
      && |w'.log| == n + 2 && w.log <= w'.log
      && w'.log[n].code == RECONNECT && Says(w'.log[n], RECONNECT_FAILED)
      && w'.log[n + 1].code == REGISTER
      && w'.client.clientID == IGNORED_ID && w'.client.meInfo == w.client.meInfo
      && w'.client.registered == w.client.registered
      && (Registrable(x, r.w) ==>
            var uid := x.turns(n + 1).draw.uuid;
            uid in w'.server.clients && w'.server.clients[uid].userName == x.cfg.userName + [0])
  {
    hide Ready, Send, RegisterNewClient, FlagAfter, Registrable, SignInClient, Build;
    RegistrationBuilt(x, w);
    ReadyValid(x, w);
    var r := Send(x, w, RECONNECT);
    if Build(x, w.client, RECONNECT).None? {
      SignInNotBuilt(x, w);
    } else {
      SignInSettles(x, w);
      RegisterSettles(x, r.w);
      if Registrable(x, r.w) {
        RegistrationEnters(x, r.w);
      }
    }
  }

  lemma SignInNotBuilt(x: Setting, w: World)
    requires Ready(x, w) && x.Valid() && Build(x, w.client, RECONNECT).None? && Known(RECONNECT)
    ensures Send(x, w, RECONNECT).w.log == w.log
  {
    hide Ready, Build;
    SendIs(x, w, RECONNECT);
    NothingBuilt(x, w, RECONNECT);
  }
}
