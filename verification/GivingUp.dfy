/**
 An upload that fails: nothing stops the client from repeating it, and when it gives up the server is
 left without the file.
 */
module GivingUp {
  import opened Bytes
  import opened Database
  import opened Protocol
  import opened Server
  import opened ServerHistory
  import opened ClientRequests
  import opened ClientModel
  import opened Exchange
  import opened ClientOperations
  import opened ClientLog
  import opened Soundness
  import opened ClientRuns
  import opened ClientConduct

  lemma UploadCodesBuild(x: Setting, w: World, code: nat)
    requires x.Valid() && Sendable(|x.cfg.file|) && code in {SEND_FILE, N_VALID_CRC, VALID_CRC, EXIT_CRC}
    ensures Known(code) && Build(x, w.client, code).Some? && Build(x, w.client, code).value.0 == w.client.clientID
  {
    hide EncryptedPayload, NameField, Sendable;
  }

  /** No answer to one of these makes the client fail. */
  lemma SendGoes(x: Setting, w: World, code: nat)
    requires Ready(x, w) && Sendable(|x.cfg.file|) && code in {SEND_FILE, N_VALID_CRC, VALID_CRC, EXIT_CRC}
    ensures Known(code)
    ensures var r := Send(x, w, code);
      && r.status == Returned(true) && |r.w.log| == |w.log| + 1 && w.log < r.w.log
      && r.w.log[|w.log|].code == code
      && r.w.client.clientID == w.client.clientID == r.w.log[|w.log|].uid
  {
    hide Ready, Send, Build, FlagAfter, Sendable;
    ReadyValid(x, w);
    UploadCodesBuild(x, w, code);
    SentId(x, w, code);
  }

  lemma {:induction false} RoundsGo(x: Setting, w: World, n: nat)
    requires Ready(x, w) && Sendable(|x.cfg.file|)
    ensures var r := Rounds(x, w, n);
      && r.status == Returned(true) && r.w.client.clientID == w.client.clientID && w.log <= r.w.log
      && (!r.w.client.crcValid ==> |r.w.log| == |w.log| + 2 * n)
    decreases n
  {
    hide *;
    if n == 0 || w.client.crcValid {
      RoundsStop(x, w, n);
    } else {
      KnownCodes();
      RoundsUnfold(x, w, n);
      SendGoes(x, w, N_VALID_CRC);
      var w1 := Send(x, w, N_VALID_CRC).w;
      SendGoes(x, w1, SEND_FILE);
      RoundsGo(x, Send(x, w1, SEND_FILE).w, n - 1);
    }
  }

  /**
   A file that can be sent is sent again until its checksum is valid, twice at most, and no answer ends the
   program on the way.  If that fails the fifth packet is a 902 under the same uuid; it is answered by 1604,
   and then the client's directory has no file of this name, and its row is not an unverified one of it.
   */
  lemma FailedUploadIsRemoved(x: Setting, w: World)
    requires Ready(x, w) && !w.client.crcValid
    requires Sendable(|x.cfg.file|) && x.crypto.validUtf8(NameField(x.cfg))
    ensures var r := ResendEncryptedMessage(x, w); var uid := w.client.clientID; var st := r.w.server;
      && r.w.client.clientID == uid
      && r.status == Returned(r.w.client.crcValid)
      && (r.status == Returned(false) ==>
            && |r.w.log| == |w.log| + 5
            && r.w.log[|w.log| + 4].code == EXIT_CRC && r.w.log[|w.log| + 4].uid == uid
            && r.w.log[|w.log| + 4].answer == Some(Reply(MSG_RECEIVED, uid))
            && (uid in st.clients ==> StoredName(x.cfg) !in Dir(st, PathOf(st, uid)))
            && (uid in st.files && !st.files[uid].verified ==> st.files[uid].fileName != StoredName(x.cfg)))
  {
    hide Ready, Rounds, Send, NameField, Stem, FlagAfter, Dir, Sendable;
    RoundsGo(x, w, 2);
    var r := Rounds(x, w, 2);
    SendGoes(x, r.w, EXIT_CRC);
    AbortArrives(x, r.w);
    AbortKeepsFlag(x, r.w);
  }

  lemma AbortKeepsFlag(x: Setting, w: World)
    requires Ready(x, w) && Known(EXIT_CRC)
    ensures Send(x, w, EXIT_CRC).w.client.crcValid == w.client.crcValid
  {
    hide Ready, Send, Matches;
  }

  /** After any run that ends with a 902 the server holds neither the file nor an unverified row of it. */
  lemma AbortedFileIsGone(x: Setting, w: World, ops: seq<Operation>)
    requires Ready(x, w) && w.log == [] && x.crypto.validUtf8(NameField(x.cfg))
    ensures var w' := RunClient(x, w, ops); var st := w'.server;
      w'.log != [] && w'.log[|w'.log| - 1].code == EXIT_CRC ==>
        var uid := w'.log[|w'.log| - 1].uid;
        && (uid in st.clients ==> StoredName(x.cfg) !in Dir(st, PathOf(st, uid)))
        && (uid in st.files && !st.files[uid].verified ==> st.files[uid].fileName != StoredName(x.cfg))
  {
    hide Ready, RunClient, LogOk, KeyGuarded, Inv, Polite, NameField, Stem, Dir, Crypto.NeverWrong, Solo;
    var from := Origin(false, w.server);
    SoundAtStart(x, from, w);
    RunSound(x, from, w, ops);
  }

  // ---- the exception that ends the program -----------------------------------------------------------

  lemma SendWithResendGoes(x: Setting, w: World, code: nat)
    requires Ready(x, w) && Sendable(|x.cfg.file|) && code in {SEND_FILE, VALID_CRC}
    ensures Known(code)
    ensures SendWithResend(x, w, code).status.Returned?
  {
    hide Ready, Send, Sendable;
    SendGoes(x, w, code);
    var w1 := Send(x, w, code).w;
    SendGoes(x, w1, code);
    SendGoes(x, Send(x, w1, code).w, code);
  }

  lemma ResendGoes(x: Setting, w: World)
    requires Ready(x, w) && Sendable(|x.cfg.file|)
    ensures ResendEncryptedMessage(x, w).status.Returned?
  {
    hide Ready, Send, Sendable, Rounds;
    RoundsGo(x, w, 2);
    SendGoes(x, Rounds(x, w, 2).w, EXIT_CRC);
  }

  lemma UnsendableThrows(x: Setting, w: World)
    requires Ready(x, w) && !Sendable(|x.cfg.file|)
    ensures Known(SEND_FILE) && Send(x, w, SEND_FILE) == Result(w, Threw)
  {
    hide Ready, Sendable;
    ReadyValid(x, w);
    KnownCodes();
    UnsendableIsNotBuilt(x, w);
    NotBuilt(x, w, SEND_FILE, Uploading(0));
  }

  lemma UnsendableIsNotBuilt(x: Setting, w: World)
    requires x.Valid() && !Sendable(|x.cfg.file|)
    ensures Build(x, w.client, SEND_FILE).None?
  {
    hide Sendable;
  }

  lemma FilePhaseThrows(x: Setting, w: World)
    requires Ready(x, w)
    ensures FilePhase(x, w).status.Threw? <==> !Sendable(|x.cfg.file|)
  {
    hide Ready, Send, Sendable, ResendEncryptedMessage, ErrorResend;
    if Sendable(|x.cfg.file|) {
      SendWithResendGoes(x, w, SEND_FILE);
      ResendGoes(x, SendWithResend(x, w, SEND_FILE).w);
    } else {
      UnsendableThrows(x, w);
    }
  }

  /**
   `uploadFile` ends the program exactly if the answer to an 826 could not be used, or the keys are
   exchanged and the file is too large to be sent.  Once an 828 is out it never does.
   */
  lemma UploadEndsProgram(x: Setting, w: World)
    requires Ready(x, w) && !w.client.exited
    ensures var keys := KeyPhase(x, w);
      UploadFile(x, w).client.exited <==>
        keys.status.Threw? || (keys.status == Returned(true) && |x.cfg.file| > 65535 * 16)
  {
    hide Ready, Sendable, KeyPhase, FilePhase, SendWithResend, Performs;
    SizeBound(|x.cfg.file|);
    var keys := KeyPhase(x, w);
    FilePhaseThrows(x, keys.w);
    if Sendable(|x.cfg.file|) {
      SendWithResendGoes(x, FilePhase(x, keys.w).w, VALID_CRC);
    }
    UploadKeepsRunning(x, w);
  }

  /** Without an exception the program goes on. */
  lemma UploadKeepsRunning(x: Setting, w: World)
    requires Ready(x, w) && !w.client.exited
    ensures !UploadBody(x, w).w.client.exited
  {
    hide Ready, UploadBody, Conducts;
    UploadBodyLeads(x, w);
    var r := UploadBody(x, w);
    var p := FirstPhase(DoUpload, w.client.registered);
    if r.status.Threw? {
      var p' :| Conducts(x, w, p, r.w, p');
      ConductKeepsExited(x, w, p, r.w, p');
    } else {
      ConductKeepsExited(x, w, p, r.w, Done);
    }
  }
}
