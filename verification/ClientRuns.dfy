/**
 What every run of the client keeps: how many packets one upload sends, when it confirms a file
 and when it gives up.
 */
module ClientRuns {
  import opened Bytes
  import opened Crc
  import opened CrcDetection
  import opened Database
  import opened Protocol
  import opened Server
  import opened ServerHistory
  import opened ClientRequests
  import opened ClientModel
  import opened Exchange
  import opened ClientOperations
  import opened ClientLog
  import opened Delivery
  import opened Soundness

  // ---- budgets -------------------------------------------------------------------------------

  /** How many packets may be sent: in all, and of the codes 828, 901, 900 and 902. */
  datatype Budget = Budget(packets: int, uploads: int, rejections: int, confirmations: int, aborts: int)

  /** The same packet `n` times. */
  function Times(n: nat, code: nat): Budget {
    Budget(n, if code == SEND_FILE then n else 0, if code == N_VALID_CRC then n else 0,
           if code == VALID_CRC then n else 0, if code == EXIT_CRC then n else 0)
  }

  /** `c` allows what `a` and `b` allow one after the other. */
  predicate Covers(c: Budget, a: Budget, b: Budget) {
    && a.packets + b.packets <= c.packets && a.uploads + b.uploads <= c.uploads
    && a.rejections + b.rejections <= c.rejections && a.confirmations + b.confirmations <= c.confirmations
    && a.aborts + b.aborts <= c.aborts
  }

  const NOTHING: Budget := Budget(0, 0, 0, 0, 0)

  /** How many packets of a code were sent. */
  function Count(log: Log, code: nat): nat {
    if log == [] then 0
    else Count(log[..|log| - 1], code) + (if log[|log| - 1].code == code then 1 else 0)
  }

  /** Between the two logs no more was sent than the budget allows. */
  predicate Within(before: Log, after: Log, b: Budget) {
    && before <= after
    && |after| <= |before| + b.packets
    && Count(after, SEND_FILE) <= Count(before, SEND_FILE) + b.uploads
    && Count(after, N_VALID_CRC) <= Count(before, N_VALID_CRC) + b.rejections
    && Count(after, VALID_CRC) <= Count(before, VALID_CRC) + b.confirmations
    && Count(after, EXIT_CRC) <= Count(before, EXIT_CRC) + b.aborts
  }

  lemma WithinTrans(a: Log, b: Log, c: Log, x: Budget, y: Budget, z: Budget)
    requires Within(a, b, x) && Within(b, c, y) && Covers(z, x, y)
    ensures Within(a, c, z)
  {
    hide Count;
  }

  lemma NothingSent(log: Log)
    ensures Within(log, log, NOTHING)
  {
  }

  lemma Slack(a: Log, b: Log, x: Budget, z: Budget)
    requires Within(a, b, x) && Covers(z, x, NOTHING)
    ensures Within(a, b, z)
  {
    hide Count;
  }

  lemma LogGrows(a: Log, b: Log, x: Budget)
    requires Within(a, b, x)
    ensures a <= b
  {
  }

  lemma Appended(log: Log, e: Entry)
    ensures Within(log, log + [e], Times(1, e.code))
    ensures LastUpload(log + [e]) == if e.code == SEND_FILE then Some(e) else LastUpload(log)
  {
    assert (log + [e])[..|log|] == log;
  }

  // ---- one packet ------------------------------------------------------------------------------

  /** What sending one packet adds to the log. */
  lemma SendFacts(x: Setting, from: Origin, w: World, code: nat)
    requires Ready(x, w) && Known(code)
    ensures var r := Send(x, w, code);
      && Within(w.log, r.w.log, Times(1, code))
      && (Sound(x, from, w) && MaySend(x.cfg, w.log, code) ==> Sound(x, from, r.w))
      && (code != SEND_FILE ==> LastUpload(r.w.log) == LastUpload(w.log))
  {
    hide Ready, Sound, MaySend, Within, LastUpload, FlagAfter;
    var r := Send(x, w, code);
    if r.w.log == w.log {
      NothingSent(w.log);
      Slack(w.log, w.log, NOTHING, Times(1, code));
    } else {
      var e := r.w.log[|w.log|];
      assert r.w.log == w.log + [e];
      Appended(w.log, e);
      LastOf(w.log, e);
    }
    if Sound(x, from, w) && MaySend(x.cfg, w.log, code) {
      SendSound(x, from, w, code);
    }
  }

  lemma OthersMaySend(cfg: Config, log: Log, code: nat)
    requires code != VALID_CRC && code != EXIT_CRC && code != N_VALID_CRC
    ensures MaySend(cfg, log, code)
  {
  }

  lemma ConfirmMaySend(cfg: Config, log: Log)
    requires LastUploadValidated(cfg, log)
    ensures MaySend(cfg, log, VALID_CRC)
  {
    hide LastUploadValidated;
  }

  lemma StillMaySend(cfg: Config, before: Log, log: Log, code: nat)
    requires LastUpload(before) == LastUpload(log) && MaySend(cfg, before, code)
    requires code != EXIT_CRC && code != N_VALID_CRC
    ensures MaySend(cfg, log, code)
  {
    hide LastUpload;
  }

  /** The last packet is an upload, and the flag says whether it was validated. */
  ghost predicate FlagIsLast(x: Setting, w: World) {
    && w.log != [] && w.log[|w.log| - 1].code == SEND_FILE
    && w.client.crcValid == Validated(x.cfg, w.log[|w.log| - 1])
    && w.log[|w.log| - 1].uid == w.client.clientID
  }

  /**
   After an upload that was answered, the flag tells whether it was validated, unless the answer
   was an error and the flag was true before: then it keeps its old value.
   */
  lemma UploadFlag(x: Setting, w: World)
    requires Ready(x, w)
    ensures var r := Send(x, w, SEND_FILE);
      r.status.Returned? ==>
        && r.w.log == w.log + [r.w.log[|w.log|]] && r.w.log[|w.log|].code == SEND_FILE
        && (!w.client.crcValid || r.w.client.response.code != GENERAL_ERROR ==> FlagIsLast(x, r.w))
  {
    hide Ready, Send, FlagIsLast;
    var r := Send(x, w, SEND_FILE);
    if r.status.Returned? {
      FlagOfUpload(x, w, r);
    }
  }

  lemma FlagOfUpload(x: Setting, w: World, r: Result)
    requires ExchangeOk(x, w, SEND_FILE, r) && r.status.Returned?
    ensures r.w.log == w.log + [r.w.log[|w.log|]] && r.w.log[|w.log|].code == SEND_FILE
    ensures !w.client.crcValid || r.w.client.response.code != GENERAL_ERROR ==> FlagIsLast(x, r.w)
  {
    hide ServerCrc;
  }

  // ---- the retry on errors -----------------------------------------------------------------------

  lemma CoversTimes(code: nat)
    ensures Covers(Times(2, code), Times(1, code), Times(1, code))
    ensures Covers(Times(3, code), Times(1, code), Times(2, code))
    ensures Covers(Times(2, code), Times(1, code), NOTHING)
    ensures Covers(Times(3, code), Times(1, code), NOTHING)
  {
  }

  lemma ErrorResendFacts(x: Setting, from: Origin, w: World, code: nat)
    requires Ready(x, w) && Known(code) && code !in {N_VALID_CRC, EXIT_CRC}
    ensures var r := ErrorResend(x, w, code);
      && Within(w.log, r.w.log, Times(2, code))
      && (Sound(x, from, w) && MaySend(x.cfg, w.log, code) ==> Sound(x, from, r.w))
      && (code != SEND_FILE ==> LastUpload(r.w.log) == LastUpload(w.log))
      && (code == SEND_FILE && Continues(r) ==> FlagIsLast(x, r.w))
  {
    hide Ready, Sound, MaySend, Within, LastUpload, FlagAfter, ExchangeOk, FlagIsLast, Count, Times, Covers;
    CoversTimes(code);
    var r1 := Send(x, w, code);
    SendFacts(x, from, w, code);
    if code != SEND_FILE && MaySend(x.cfg, w.log, code) {
      StillMaySend(x.cfg, w.log, r1.w.log, code);
    }
    if code == SEND_FILE {
      OthersMaySend(x.cfg, r1.w.log, code);
    }
    var r2 := Send(x, r1.w, code);
    SendFacts(x, from, r1.w, code);
    WithinTrans(w.log, r1.w.log, r2.w.log, Times(1, code), Times(1, code), Times(2, code));
    Slack(w.log, r1.w.log, Times(1, code), Times(2, code));
    if code == SEND_FILE {
      UploadFlag(x, r1.w);
    }
  }

  lemma SendWithResendFacts(x: Setting, from: Origin, w: World, code: nat)
    requires Ready(x, w) && Known(code) && code !in {N_VALID_CRC, EXIT_CRC}
    ensures var r := SendWithResend(x, w, code);
      && Within(w.log, r.w.log, Times(3, code))
      && (Sound(x, from, w) && MaySend(x.cfg, w.log, code) ==> Sound(x, from, r.w))
      && (code != SEND_FILE ==> LastUpload(r.w.log) == LastUpload(w.log))
      && (code == SEND_FILE && Continues(r) ==> FlagIsLast(x, r.w))
  {
    hide Ready, Sound, MaySend, Within, LastUpload, FlagAfter, FlagIsLast, ErrorResend, Count, Times, Covers;
    CoversTimes(code);
    var r1 := Send(x, w, code);
    SendFacts(x, from, w, code);
    if code != SEND_FILE && MaySend(x.cfg, w.log, code) {
      StillMaySend(x.cfg, w.log, r1.w.log, code);
    }
    if code == SEND_FILE {
      OthersMaySend(x.cfg, r1.w.log, code);
    }
    ErrorResendFacts(x, from, r1.w, code);
    WithinTrans(w.log, r1.w.log, ErrorResend(x, r1.w, code).w.log, Times(1, code), Times(2, code), Times(3, code));
    Slack(w.log, r1.w.log, Times(1, code), Times(3, code));
    if code == SEND_FILE {
      UploadFlag(x, w);
    }
  }

  // ---- the retry on checksums --------------------------------------------------------------------

  const RESEND_BUDGET: Budget := Budget(5, 2, 2, 0, 1)

  function RoundsBudget(n: nat): Budget {
    Budget(2 * n, n, n, 0, 0)
  }

  /** From position `from` on 901 and 828 alternate, and no upload but perhaps the last was validated. */
  ghost predicate RoundsLog(cfg: Config, log: Log, from: nat) {
    && from <= |log|
    && (forall i :: 0 <= i && from + 2 * i < |log| ==> log[from + 2 * i].code == N_VALID_CRC)
    && (forall i :: 0 <= i && from + 2 * i + 1 < |log| ==>
          && log[from + 2 * i + 1].code == SEND_FILE
          && (from + 2 * i + 2 < |log| ==> !Validated(cfg, log[from + 2 * i + 1])))
  }

  lemma NoRounds(cfg: Config, log: Log)
    ensures RoundsLog(cfg, log, |log|)
  {
  }

  lemma MoreRounds(cfg: Config, before: Log, between: Log, after: Log)
    requires |between| == |before| + 2 && between <= after
    requires between[|before|].code == N_VALID_CRC && between[|before| + 1].code == SEND_FILE
    requires |after| > |between| ==> !Validated(cfg, between[|before| + 1])
    requires RoundsLog(cfg, after, |between|)
    ensures RoundsLog(cfg, after, |before|)
  {
    hide Validated;
    forall i | 0 <= i && |before| + 2 * i < |after| ensures after[|before| + 2 * i].code == N_VALID_CRC {
      if i > 0 {
        assert after[|between| + 2 * (i - 1)].code == N_VALID_CRC;
      }
    }
    forall i | 0 <= i && |before| + 2 * i + 1 < |after|
      ensures after[|before| + 2 * i + 1].code == SEND_FILE
      ensures |before| + 2 * i + 2 < |after| ==> !Validated(cfg, after[|before| + 2 * i + 1])
    {
      if i > 0 {
        assert after[|between| + 2 * (i - 1) + 1].code == SEND_FILE;
      }
    }
  }

  lemma RejectMaySend(x: Setting, w: World)
    requires FlagIsLast(x, w)
    ensures MaySend(x.cfg, w.log, N_VALID_CRC)
  {
  }

  /** One round that was sent in full. */
  ghost predicate RoundSent(x: Setting, w: World, after: World) {
    && |after.log| == |w.log| + 2 && w.log <= after.log
    && after.log[|w.log|].code == N_VALID_CRC
    && FlagIsLast(x, after)
  }

  lemma HalfRound(cfg: Config, log: Log, e: Entry)
    requires e.code == N_VALID_CRC
    ensures RoundsLog(cfg, log + [e], |log|)
  {
    hide Validated;
  }

  /** What a round leaves in the log, as far as it gets. */
  lemma RoundShape(x: Setting, w: World, r1: Result, r2: Result)
    requires ExchangeOk(x, w, N_VALID_CRC, r1) && ExchangeOk(x, r1.w, SEND_FILE, r2)
    requires r2.status.Returned? ==>
      |r2.w.log| == |r1.w.log| + 1 && r2.w.log[|r1.w.log|].code == SEND_FILE && FlagIsLast(x, r2.w)
    ensures r1.status.Threw? ==> RoundsLog(x.cfg, r1.w.log, |w.log|)
    ensures r1.status.Returned? && r2.status.Threw? ==> RoundsLog(x.cfg, r2.w.log, |w.log|)
    ensures r1.status.Returned? && r2.status.Returned? ==> RoundSent(x, w, r2.w)
  {
    hide Validated, FlagIsLast, FlagAfter, RoundsLog;
    NoRounds(x.cfg, w.log);
    if r1.status.Returned? {
      assert r1.w.log == w.log + [r1.w.log[|w.log|]];
      HalfRound(x.cfg, w.log, r1.w.log[|w.log|]);
    }
  }

  lemma RoundFlag(x: Setting, w: World)
    requires Ready(x, w) && !w.client.crcValid
    ensures var r1 := Send(x, w, N_VALID_CRC); var r2 := Send(x, r1.w, SEND_FILE);
      r2.status.Returned? ==>
        |r2.w.log| == |r1.w.log| + 1 && r2.w.log[|r1.w.log|].code == SEND_FILE && FlagIsLast(x, r2.w)
  {
    hide Ready, FlagIsLast, Matches;
    UploadFlag(x, Send(x, w, N_VALID_CRC).w);
  }

  lemma OneRound(x: Setting, from: Origin, w: World) returns (r1: Result, r2: Result)
    requires Ready(x, w) && !w.client.crcValid && FlagIsLast(x, w)
    ensures r1 == Send(x, w, N_VALID_CRC) && Ready(x, r1.w) && r2 == Send(x, r1.w, SEND_FILE)
    ensures Within(w.log, r1.w.log, RoundsBudget(1)) && Within(w.log, r2.w.log, RoundsBudget(1))
    ensures Sound(x, from, w) ==> Sound(x, from, r1.w) && Sound(x, from, r2.w)
    ensures r1.status.Threw? ==> RoundsLog(x.cfg, r1.w.log, |w.log|)
    ensures r1.status.Returned? && r2.status.Threw? ==> RoundsLog(x.cfg, r2.w.log, |w.log|)
    ensures r1.status.Returned? && r2.status.Returned? ==> RoundSent(x, w, r2.w)
  {
    hide Ready, Sound, MaySend, Within, LastUpload, FlagIsLast, Count, RoundsLog, RoundSent, ExchangeOk, Send;
    RejectMaySend(x, w);
    r1 := Send(x, w, N_VALID_CRC);
    OthersMaySend(x.cfg, r1.w.log, SEND_FILE);
    SendFacts(x, from, w, N_VALID_CRC);
    SendFacts(x, from, r1.w, SEND_FILE);
    r2 := Send(x, r1.w, SEND_FILE);
    RoundFlag(x, w);
    RoundShape(x, w, r1, r2);
    Slack(w.log, r1.w.log, Times(1, N_VALID_CRC), RoundsBudget(1));
    WithinTrans(w.log, r1.w.log, r2.w.log, Times(1, N_VALID_CRC), Times(1, SEND_FILE), RoundsBudget(1));
  }

  /** What `n` rounds come to: they stop at the first upload that was validated. */
  ghost predicate RoundsOk(x: Setting, from: Origin, w: World, r: Result, n: nat) {
    && Within(w.log, r.w.log, RoundsBudget(n))
    && (Sound(x, from, w) ==> Sound(x, from, r.w))
    && RoundsLog(x.cfg, r.w.log, |w.log|)
    && (r.status.Returned? ==>
          && Continues(r) && FlagIsLast(x, r.w)
          && (!r.w.client.crcValid ==> |r.w.log| == |w.log| + 2 * n))
  }

  lemma NoRoundsOk(x: Setting, from: Origin, w: World, n: nat)
    requires FlagIsLast(x, w) && (n == 0 || w.client.crcValid)
    ensures RoundsOk(x, from, w, Result(w, Returned(true)), n)
  {
    hide Sound, Within, FlagIsLast, RoundsLog;
    NothingSent(w.log);
    Slack(w.log, w.log, NOTHING, RoundsBudget(n));
    NoRounds(x.cfg, w.log);
  }

  lemma BrokenRound(x: Setting, from: Origin, w: World, r: Result, n: nat)
    requires n > 0 && r.status.Threw? && Within(w.log, r.w.log, RoundsBudget(1))
    requires RoundsLog(x.cfg, r.w.log, |w.log|)
    requires Sound(x, from, w) ==> Sound(x, from, r.w)
    ensures RoundsOk(x, from, w, r, n)
  {
    hide Sound, Within, RoundsLog;
    Slack(w.log, r.w.log, RoundsBudget(1), RoundsBudget(n));
  }

  lemma RoundThenRounds(x: Setting, from: Origin, w: World, between: World, r: Result, n: nat)
    requires n > 0 && RoundSent(x, w, between) && Within(w.log, between.log, RoundsBudget(1))
    requires Sound(x, from, w) ==> Sound(x, from, between)
    requires RoundsOk(x, from, between, r, n - 1)
    requires between.client.crcValid ==> r == Result(between, Returned(true))
    ensures RoundsOk(x, from, w, r, n)
  {
    hide Sound, Within, Validated, RoundsLog;
    WithinTrans(w.log, between.log, r.w.log, RoundsBudget(1), RoundsBudget(n - 1), RoundsBudget(n));
    LogGrows(between.log, r.w.log, RoundsBudget(n - 1));
    MoreRounds(x.cfg, w.log, between.log, r.w.log);
  }

  lemma RoundsStop(x: Setting, w: World, n: nat)
    requires Ready(x, w) && (n == 0 || w.client.crcValid)
    ensures Rounds(x, w, n) == Result(w, Returned(true))
  {
  }

  lemma RoundsUnfold(x: Setting, w: World, n: nat)
    requires Ready(x, w) && n > 0 && !w.client.crcValid
    ensures var r1 := Send(x, w, N_VALID_CRC); var r2 := Send(x, r1.w, SEND_FILE);
      Rounds(x, w, n) ==
        if r1.status.Threw? then r1 else if r2.status.Threw? then r2 else Rounds(x, r2.w, n - 1)
  {
    hide Ready, ExchangeOk, Known;
  }

  lemma SentFlag(x: Setting, w: World, after: World)
    requires RoundSent(x, w, after)
    ensures FlagIsLast(x, after)
  {
  }

  /** Until a checksum is validated, every round is 901 and 828; `n` rounds at most. */
  lemma {:induction false} RoundsFacts(x: Setting, from: Origin, w: World, n: nat)
    requires Ready(x, w) && FlagIsLast(x, w)
    ensures RoundsOk(x, from, w, Rounds(x, w, n), n)
    decreases n
  {
    hide *;
    if n == 0 || w.client.crcValid {
      RoundsStop(x, w, n);
      NoRoundsOk(x, from, w, n);
    } else {
      RoundsUnfold(x, w, n);
      var r1, r2 := OneRound(x, from, w);
      if r1.status.Threw? {
        BrokenRound(x, from, w, r1, n);
      } else if r2.status.Threw? {
        BrokenRound(x, from, w, r2, n);
      } else {
        SentFlag(x, w, r2.w);
        RoundsFacts(x, from, r2.w, n - 1);
        if r2.w.client.crcValid {
          RoundsStop(x, r2.w, n - 1);
        }
        RoundThenRounds(x, from, w, r2.w, Rounds(x, r2.w, n - 1), n);
      }
    }
  }

  lemma FailuresAdd(x: Setting, w: World, after: World)
    requires FlagIsLast(x, w) && !w.client.crcValid && w.log <= after.log
    requires RoundsLog(x.cfg, after.log, |w.log|) && |after.log| == |w.log| + 4
    requires FlagIsLast(x, after) && !after.client.crcValid
    ensures ThreeFailures(x.cfg, after.log)
  {
    hide Validated;
    var from, log := |w.log|, after.log;
    forall i | 0 <= i < 2
      ensures log[from + 2 * i].code == N_VALID_CRC
      ensures log[from + 2 * i + 1].code == SEND_FILE && !Validated(x.cfg, log[from + 2 * i + 1])
    {
    }
  }

  /** The latest upload went out under the client's present uuid. */
  predicate LastIsOwn(w: World) {
    LastUpload(w.log).Some? && LastUpload(w.log).value.uid == w.client.clientID
  }

  lemma FlagValidates(x: Setting, w: World)
    requires FlagIsLast(x, w) && w.client.crcValid
    ensures LastUploadValidated(x.cfg, w.log) && LastIsOwn(w)
  {
  }

  /** The log ends with a 902 after exactly two rounds, which with the upload before make three failures. */
  ghost predicate AbortSent(cfg: Config, before: Log, after: Log) {
    && |after| == |before| + 5 && after[|before| + 4].code == EXIT_CRC
    && ThreeFailures(cfg, after[..|before| + 4])
  }

  /**
   `resendEncryptedMessage` ends with a validated upload, or with a 902 after exactly two failed rounds,
   or with an exception in one of the rounds or before the 902 is sent.
   */
  lemma ResendFacts(x: Setting, from: Origin, w: World)
    requires Ready(x, w) && FlagIsLast(x, w) && !w.client.crcValid
    ensures var r := ResendEncryptedMessage(x, w);
      && Within(w.log, r.w.log, if Continues(r) then RoundsBudget(2) else RESEND_BUDGET)
      && (Sound(x, from, w) ==> Sound(x, from, r.w))
      && (Continues(r) ==> FlagIsLast(x, r.w) && r.w.client.crcValid)
      && (if r.status == Returned(false) then AbortSent(x.cfg, w.log, r.w.log)
          else RoundsLog(x.cfg, r.w.log, |w.log|))
  {
    hide Ready, Sound, Within, FlagIsLast, RoundsLog, ThreeFailures, FlagAfter, Rounds, Count, LastUpload;
    RoundsFacts(x, from, w, 2);
    var r := Rounds(x, w, 2);
    if r.status.Threw? || r.w.client.crcValid {
      Slack(w.log, r.w.log, RoundsBudget(2), RESEND_BUDGET);
    } else {
      LogGrows(w.log, r.w.log, RoundsBudget(2));
      FailuresAdd(x, w, r.w);
      SendFacts(x, from, r.w, EXIT_CRC);
      assert Send(x, r.w, EXIT_CRC).w.log[..|r.w.log|] == r.w.log;
      WithinTrans(w.log, r.w.log, Send(x, r.w, EXIT_CRC).w.log,
        RoundsBudget(2), Times(1, EXIT_CRC), RESEND_BUDGET);
    }
  }

  // ---- one upload --------------------------------------------------------------------------------

  /** An upload that ends in a confirmation, or in giving up. */
  const CONFIRMED: Budget := Budget(13, 5, 2, 3, 0)
  const ABORTED: Budget := Budget(11, 5, 2, 0, 1)

  const FILED: Budget := Budget(7, 5, 2, 0, 0)
  const UNFILED: Budget := Budget(8, 5, 2, 0, 1)

  lemma FilePhaseFacts(x: Setting, from: Origin, w: World)
    requires Ready(x, w)
    ensures var r := FilePhase(x, w);
      && Within(w.log, r.w.log, if Continues(r) then FILED else UNFILED)
      && (Sound(x, from, w) ==> Sound(x, from, r.w))
      && (Continues(r) ==> LastUploadValidated(x.cfg, r.w.log) && LastIsOwn(r.w))
  {
    hide Ready, Sound, MaySend, Within, FlagIsLast, LastUploadValidated, LastIsOwn, SendWithResend,
         ResendEncryptedMessage;
    OthersMaySend(x.cfg, w.log, SEND_FILE);
    SendWithResendFacts(x, from, w, SEND_FILE);
    var r := SendWithResend(x, w, SEND_FILE);
    if !Continues(r) || r.w.client.crcValid {
      Slack(w.log, r.w.log, Times(3, SEND_FILE), UNFILED);
      Slack(w.log, r.w.log, Times(3, SEND_FILE), FILED);
      if Continues(r) {
        FlagValidates(x, r.w);
      }
    } else {
      ResendFacts(x, from, r.w);
      var r' := ResendEncryptedMessage(x, r.w);
      if Continues(r') {
        WithinTrans(w.log, r.w.log, r'.w.log, Times(3, SEND_FILE), RoundsBudget(2), FILED);
        FlagValidates(x, r'.w);
      } else {
        WithinTrans(w.log, r.w.log, r'.w.log, Times(3, SEND_FILE), RESEND_BUDGET, UNFILED);
      }
    }
  }

  lemma KeyPhaseFacts(x: Setting, from: Origin, w: World)
    requires Ready(x, w)
    ensures var r := KeyPhase(x, w);
      && Within(w.log, r.w.log, Times(3, S_PUBLIC_KEY))
      && (Sound(x, from, w) ==> Sound(x, from, r.w))
  {
    hide Ready, Sound, MaySend, Within, FlagIsLast, LastUpload, SendWithResend;
    OthersMaySend(x.cfg, w.log, S_PUBLIC_KEY);
    if w.client.registered {
      NothingSent(w.log);
      Slack(w.log, w.log, NOTHING, Times(3, S_PUBLIC_KEY));
    } else {
      SendWithResendFacts(x, from, w, S_PUBLIC_KEY);
    }
  }

  lemma UploadBodyFacts(x: Setting, from: Origin, w: World)
    requires Ready(x, w)
    ensures var r := UploadBody(x, w);
      && (Within(w.log, r.w.log, CONFIRMED) || Within(w.log, r.w.log, ABORTED))
      && (Sound(x, from, w) ==> Sound(x, from, r.w))
  {
    hide Ready, Sound, MaySend, Within, LastUploadValidated, KeyPhase, FilePhase, SendWithResend, LastIsOwn;
    KeyPhaseFacts(x, from, w);
    var r1 := KeyPhase(x, w);
    if !Continues(r1) {
      Slack(w.log, r1.w.log, Times(3, S_PUBLIC_KEY), ABORTED);
    } else {
      FilePhaseFacts(x, from, r1.w);
      var r2 := FilePhase(x, r1.w);
      if !Continues(r2) {
        WithinTrans(w.log, r1.w.log, r2.w.log, Times(3, S_PUBLIC_KEY), UNFILED, ABORTED);
      } else {
        WithinTrans(w.log, r1.w.log, r2.w.log, Times(3, S_PUBLIC_KEY), FILED, Budget(10, 5, 2, 0, 0));
        ConfirmMaySend(x.cfg, r2.w.log);
        SendWithResendFacts(x, from, r2.w, VALID_CRC);
        var r3 := SendWithResend(x, r2.w, VALID_CRC);
        WithinTrans(w.log, r2.w.log, r3.w.log, Budget(10, 5, 2, 0, 0), Times(3, VALID_CRC), CONFIRMED);
      }
    }
  }

  lemma OwnVariables(x: Setting, from: Origin, w: World, cs: ClientState)
    requires Ready(x, w) && |cs.clientID| == UID_SIZE
    requires cs.key == w.client.key
    ensures WithClient(x, w, cs).log == w.log
    ensures Sound(x, from, w) ==> Sound(x, from, WithClient(x, w, cs))
  {
    hide Ready, Sound;
    if Sound(x, from, w) {
      SoundWithClient(x, from, w, cs);
    }
  }

  lemma UploadFacts(x: Setting, from: Origin, w: World)
    requires Ready(x, w)
    ensures var w' := UploadFile(x, w);
      && (Within(w.log, w'.log, CONFIRMED) || Within(w.log, w'.log, ABORTED))
      && (Sound(x, from, w) ==> Sound(x, from, w'))
  {
    hide Ready, Sound, Within, UploadBody, WithClient;
    UploadBodyFacts(x, from, w);
    var r := UploadBody(x, w);
    ReadyId(x, r.w);
    OwnVariables(x, from, r.w, r.w.client.(exited := true));
  }

  /**
   One `uploadFile` sends at most 13 packets, five of them 828 and two 901; and it never sends
   both a 900 and a 902.
   */
  lemma UploadBounded(x: Setting, w: World)
    requires Ready(x, w)
    ensures var w' := UploadFile(x, w); Within(w.log, w'.log, CONFIRMED) || Within(w.log, w'.log, ABORTED)
  {
    hide Ready, Sound, Within, UploadFile;
    UploadFacts(x, Origin(false, w.server), w);
  }

  // ---- every run ---------------------------------------------------------------------------------

  lemma RegisterSound(x: Setting, from: Origin, w: World)
    requires Ready(x, w) && Sound(x, from, w)
    ensures Sound(x, from, RegisterNewClient(x, w))
  {
    hide Ready, Sound, Within, LastUpload, MaySend, WithClient, FlagAfter;
    OthersMaySend(x.cfg, w.log, REGISTER);
    SendFacts(x, from, w, REGISTER);
    var r := Send(x, w, REGISTER);
    if r.status.Returned? && r.w.client.response.code == REG_SUCCESSFUL {
      OwnVariables(x, from, r.w, r.w.client.(clientID := r.w.client.response.payload[..UID_SIZE]));
    }
  }

  lemma SignInSound(x: Setting, from: Origin, w: World)
    requires Ready(x, w) && Sound(x, from, w)
    ensures Sound(x, from, SignInClient(x, w))
  {
    hide Ready, Sound, Within, LastUpload, MaySend, WithClient, FlagAfter, RegisterNewClient;
    OthersMaySend(x.cfg, w.log, RECONNECT);
    SendFacts(x, from, w, RECONNECT);
    var r := Send(x, w, RECONNECT);
    if r.status.Returned? && r.w.client.response.code == RECONNECT_FAILED {
      RegisterSound(x, from, r.w);
    }
    if r.status.Returned? && r.w.client.response.code == OK_RECONNECT {
      ReadyId(x, r.w);
      OwnVariables(x, from, r.w, r.w.client.(registered := true));
    }
  }

  /** The invariant holds after operations in any order. */
  lemma {:induction false} RunSound(x: Setting, from: Origin, w: World, ops: seq<Operation>)
    requires Ready(x, w) && Sound(x, from, w)
    ensures Sound(x, from, RunClient(x, w, ops))
    decreases ops
  {
    hide Ready, Sound, RegisterNewClient, SignInClient, UploadFile, Within;
    if ops != [] {
      RegisterSound(x, from, w);
      SignInSound(x, from, w);
      UploadFacts(x, from, w);
      RunSound(x, from, Perform(x, w, ops[0]), ops[1..]);
    }
  }

  /**
   Whatever operations the client performs in whatever order, whatever other clients do and
   however uploads are altered on the way: every 900 it sends follows an upload answered with its
   own file's checksum, and every 902 follows an upload and two rounds of 901 and 828, all of which
   failed to validate.  A 901 comes right after an upload, so never two in a row.
   */
  lemma ConfirmationsAreValidated(x: Setting, w: World, ops: seq<Operation>)
    requires Ready(x, w) && w.log == []
    ensures var log := RunClient(x, w, ops).log;
      forall i :: 0 <= i < |log| ==>
        && (log[i].code == VALID_CRC ==> LastUploadValidated(x.cfg, log[..i]))
        && (log[i].code == EXIT_CRC ==> ThreeFailures(x.cfg, log[..i]))
        && (log[i].code == N_VALID_CRC ==> i > 0 && log[i - 1].code == SEND_FILE)
  {
    hide Ready, Inv, RunClient, LastUploadValidated, ThreeFailures, Polite, KeyGuarded, Crypto.NeverWrong;
    SoundAtStart(x, Origin(false, w.server), w);
    RunSound(x, Origin(false, w.server), w, ops);
    var log := RunClient(x, w, ops).log;
    assert forall i :: 0 <= i < |log| ==> MaySend(x.cfg, log[..i], log[i].code);
  }

  /** The file the server holds for this client, if it holds one. */
  ghost function Backup(x: Setting, st: Store, uid: Bytes): Option<Bytes> {
    ReadFile(st, PathOf(st, uid), StoredName(x.cfg))
  }

  /**
   After any run in which the latest upload was validated, the server's disk holds a file with the
   client's checksum under the client's name; and that is the client's file, unless the two differ
   by more than one burst of 32 bits.
   */
  lemma ValidatedFileIsOnDisk(x: Setting, w: World, ops: seq<Operation>)
    requires Ready(x, w) && w.log == [] && Inv(w.server) && Polite(x)
    ensures var w' := RunClient(x, w, ops);
      LastUploadValidated(x.cfg, w'.log) && Alone(x, LastUpload(w'.log).value.uid) ==>
        var stored := Backup(x, w'.server, LastUpload(w'.log).value.uid);
        && stored.Some? && Memcrc(stored.value) == Memcrc(x.cfg.file)
        && (forall p :: DifferByBurst(stored.value, x.cfg.file, p) ==> stored.value == x.cfg.file)
  {
    hide Ready, Inv, RunClient, Polite, LogOk, Alone, Memcrc, Validated, LastUpload, DifferByBurst;
    SoundAtStart(x, Origin(true, w.server), w);
    RunSound(x, Origin(true, w.server), w, ops);
    var w' := RunClient(x, w, ops);
    if LastUploadValidated(x.cfg, w'.log) && Alone(x, LastUpload(w'.log).value.uid) {
      var uid := LastUpload(w'.log).value.uid;
      assert FileGuarded(x, w', uid);
      BackupIsIntact(x, w'.server, uid);
    }
  }

  lemma BackupIsIntact(x: Setting, st: Store, uid: Bytes)
    requires OnDisk(x.cfg, st, uid)
    ensures var stored := Backup(x, st, uid);
      && stored.Some? && Memcrc(stored.value) == Memcrc(x.cfg.file)
      && (forall p :: DifferByBurst(stored.value, x.cfg.file, p) ==> stored.value == x.cfg.file)
  {
    hide Memcrc, PathOf, RemovePipes, NameField, DifferByBurst;
    var stored := Backup(x, st, uid);
    forall p | DifferByBurst(stored.value, x.cfg.file, p) ensures stored.value == x.cfg.file {
      BurstDetected(stored.value, x.cfg.file, p);
    }
  }

  /** The world after the 900 has been sent `n` times. */
  ghost function Confirming(x: Setting, w: World, n: nat): (w': World)
    requires Ready(x, w)
    ensures Ready(x, w')
    decreases n
  {
    if n == 0 then w else Confirming(x, Send(x, w, VALID_CRC).w, n - 1)
  }

  lemma ConfirmationKeepsId(x: Setting, w: World)
    requires Ready(x, w)
    ensures Send(x, w, VALID_CRC).w.client.clientID == w.client.clientID
  {
    hide Handle, Process, Meanwhile, NameField, ExchangeOk, Sized, Setting.Sane;
    ExchangeIsDirect(x, w, VALID_CRC);
    var req := Outgoing(x, w, VALID_CRC);
    var a := Handle(x.crypto, Meanwhile(x, w), req, x.turns(|w.log|).draw).1.value;
    ProcessKeepsControl(x, w.client.(clientID := req.clientID, response := a), a);
  }

  lemma {:induction false} ConfirmingSound(x: Setting, from: Origin, w: World, n: nat)
    requires Ready(x, w) && from.good && Sound(x, from, w) && LastUploadValidated(x.cfg, w.log) && LastIsOwn(w)
    ensures var w' := Confirming(x, w, n);
      && Sound(x, from, w') && LastUploadValidated(x.cfg, w'.log)
      && LastUpload(w'.log) == LastUpload(w.log) && w'.client.clientID == w.client.clientID
    decreases n
  {
    hide Ready, Sound, Validated, LastUpload, MaySend, Within, ExchangeOk;
    if n > 0 {
      ConfirmMaySend(x.cfg, w.log);
      SendFacts(x, from, w, VALID_CRC);
      ConfirmationKeepsId(x, w);
      ConfirmingSound(x, from, Send(x, w, VALID_CRC).w, n - 1);
    }
  }

  /**
   The same at the moment a 900 is about to be sent, for the first time or again, under the uuid it
   will be sent with.
   */
  lemma ConfirmedFileIsOnDisk(x: Setting, from: Origin, w: World, n: nat)
    requires Ready(x, w) && from.good && Sound(x, from, w)
    requires Continues(KeyPhase(x, w)) && Continues(FilePhase(x, KeyPhase(x, w).w))
    requires Alone(x, FilePhase(x, KeyPhase(x, w).w).w.client.clientID)
    ensures var w' := Confirming(x, FilePhase(x, KeyPhase(x, w).w).w, n);
      var stored := Backup(x, w'.server, w'.client.clientID);
      && stored.Some? && Memcrc(stored.value) == Memcrc(x.cfg.file)
      && (forall p :: DifferByBurst(stored.value, x.cfg.file, p) ==> stored.value == x.cfg.file)
  {
    hide Ready, Inv, KeyPhase, FilePhase, Polite, LogOk, Alone, Memcrc, Validated, DifferByBurst, Within, Confirming;
    KeyPhaseFacts(x, from, w);
    FilePhaseFacts(x, from, KeyPhase(x, w).w);
    var w1 := FilePhase(x, KeyPhase(x, w).w).w;
    ConfirmingSound(x, from, w1, n);
    var w' := Confirming(x, w1, n);
    assert FileGuarded(x, w', w'.client.clientID);
    BackupIsIntact(x, w'.server, w'.client.clientID);
  }

  /**
   After any run in which the latest 826 or 827 was answered with a key and accepted, the client's
   key is the one the server stores for that uuid.  What else is in the server's store does not matter.
   */
  lemma KeysAgreeAfterRuns(x: Setting, w: World, ops: seq<Operation>, uid: Bytes)
    requires Ready(x, w) && w.log == [] && x.crypto.NeverWrong() && Alone(x, uid)
    ensures var w' := RunClient(x, w, ops);
      LastKey(w'.log).Some? && KeyAccepted(LastKey(w'.log).value, uid) ==>
        && uid in w'.server.clients
        && w'.client.key == w'.server.clients[uid].aesKey && |w'.client.key| == AES_KEY_SIZE
  {
    hide Ready, Inv, RunClient, Polite, LogOk, Alone, LastKey, KeyAccepted, Crypto.NeverWrong;
    SoundAtStart(x, Origin(false, w.server), w);
    RunSound(x, Origin(false, w.server), w, ops);
    assert KeyGuarded(x, RunClient(x, w, ops), uid);
  }
}
