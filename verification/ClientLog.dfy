/** The client's log of packets, and when a confirmation or an abort may be sent. */
module ClientLog {
  import opened Bytes
  import opened Protocol
  import opened ClientRequests
  import opened ClientModel

  type Log = seq<Entry>

  /** The latest upload, answered or not. */
  function LastUpload(log: Log): Option<Entry> {
    if log == [] then None
    else if log[|log| - 1].code == SEND_FILE then Some(log[|log| - 1])
    else LastUpload(log[..|log| - 1])
  }

  /** The latest key exchange or sign-in, answered or not. */
  function LastKey(log: Log): Option<Entry> {
    if log == [] then None
    else if log[|log| - 1].code in {S_PUBLIC_KEY, RECONNECT} then Some(log[|log| - 1])
    else LastKey(log[..|log| - 1])
  }

  lemma LastOf(log: Log, e: Entry)
    ensures LastUpload(log + [e]) == if e.code == SEND_FILE then Some(e) else LastUpload(log)
    ensures LastKey(log + [e]) == if e.code in {S_PUBLIC_KEY, RECONNECT} then Some(e) else LastKey(log)
  {
    assert (log + [e])[..|log|] == log;
  }

  /** The upload was answered by a 1603 with the checksum of the client's own file. */
  predicate Validated(cfg: Config, e: Entry) {
    e.answer.Some? && Matches(cfg, e.answer.value)
  }

  predicate LastUploadValidated(cfg: Config, log: Log) {
    LastUpload(log).Some? && Validated(cfg, LastUpload(log).value)
  }

  /** `n` rounds of 901 and 828 from position `from` to the end, no upload of them validated. */
  ghost predicate FailedRounds(cfg: Config, log: Log, from: nat, n: nat) {
    && |log| == from + 2 * n
    && forall i :: 0 <= i < n ==>
      && log[from + 2 * i].code == N_VALID_CRC
      && log[from + 2 * i + 1].code == SEND_FILE && !Validated(cfg, log[from + 2 * i + 1])
  }

  /** The last five packets are an upload and two rounds of 901 and 828, none of them validated. */
  ghost predicate ThreeFailures(cfg: Config, log: Log) {
    && |log| >= 5
    && log[|log| - 5].code == SEND_FILE && !Validated(cfg, log[|log| - 5])
    && FailedRounds(cfg, log, |log| - 4, 2)
  }

  predicate AfterUpload(log: Log) {
    log != [] && log[|log| - 1].code == SEND_FILE
  }

  /** A 900 follows a validated upload, a 902 three failures; and a 901 comes right after an upload. */
  ghost predicate MaySend(cfg: Config, before: Log, code: nat) {
    && (code == VALID_CRC ==> LastUploadValidated(cfg, before))
    && (code == EXIT_CRC ==> ThreeFailures(cfg, before))
    && (code == N_VALID_CRC ==> AfterUpload(before))
  }

  /** Every packet of the log was sent when it may be. */
  ghost predicate LogOk(cfg: Config, log: Log) {
    forall i :: 0 <= i < |log| ==> MaySend(cfg, log[..i], log[i].code)
  }

  lemma LogOkAppend(cfg: Config, log: Log, e: Entry)
    requires LogOk(cfg, log) && MaySend(cfg, log, e.code)
    ensures LogOk(cfg, log + [e])
  {
    hide MaySend;
    forall i | 0 <= i < |log| + 1 ensures MaySend(cfg, (log + [e])[..i], (log + [e])[i].code) {
      if i < |log| {
        assert (log + [e])[..i] == log[..i];
      } else {
        assert (log + [e])[..i] == log;
      }
    }
  }
}
