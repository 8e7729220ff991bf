/**
 A client's runs at the granularity of single queries and file operations: the client is one thread
 among others that it knows nothing of, and what was proved of its runs alone holds of the store they
 all share.
 */
module SharedServer {
  import opened Bytes
  import opened Crc
  import opened CrcDetection
  import opened Database
  import opened Protocol
  import opened Server
  import opened ServerHistory
  import opened Isolation
  import opened ClientRequests
  import opened ClientModel
  import opened Exchange
  import opened ClientOperations
  import opened ClientLog
  import opened Delivery
  import opened Soundness
  import opened ClientRuns

  /** All packets were sent under this uuid, and none of them was a registration. */
  predicate AllOf(log: Log, u: Bytes) {
    forall i :: 0 <= i < |log| ==> log[i].uid == u && log[i].code != REGISTER
  }

  /** A session reads all of a run of known codes. */
  lemma {:induction false} ReadsAll(run: seq<Event>)
    requires forall e :: e in run ==> !Unknown(e.request)
    ensures Read(run) == run
  {
    hide Unknown;
    if run != [] {
      assert run[0] in run;
      ReadsAll(run[1..]);
    }
  }

  lemma TraceIsOwn(x: Setting, start: Store, w: World, run: seq<Event>, u: Bytes)
    requires x.Valid() && Traces(x, start, w, run) && AllOf(w.log, u)
    ensures forall e :: e in run ==> EventOf(e, u) && !Unknown(e.request)
  {
    hide HandleAll, Known;
    forall e | e in run ensures EventOf(e, u) && !Unknown(e.request) {
      var i :| 0 <= i < |run| && run[i] == e;
      assert Known(w.log[i].code);
    }
  }

  /** The threads when the client starts: it is number `k`, and the others do not use its uuid. */
  ghost predicate Shared(st: Store, ss: map<nat, Sess>, k: nat, u: Bytes, run: seq<Event>) {
    && Inv(st) && u in st.clients
    && k in ss && AtStart(ss) && ss[k].queue == run
    && forall j :: j in ss && j != k ==> forall e :: e in ss[j].queue ==> ForeignEvent(e, u)
  }

  /**
   A client that alone at the server would send `run` and see certain answers, sees the same answers
   when its packets are handled by one thread among others, whose steps come in between its own; and
   what the shared store holds of the client is what the store would hold alone.
   */
  lemma RunAmongOthers(
    x: Setting, from: Origin, w: World, run: seq<Event>,
    ss: map<nat, Sess>, schedule: seq<nat>, k: nat, u: Bytes)
    requires x.Valid() && Traces(x, from.store, w, run) && AllOf(w.log, u)
    requires Shared(from.store, ss, k, u, run)
    requires forall j :: j in schedule ==> j in ss
    ensures var (st', ss') := Interleave(x.crypto, from.store, ss, schedule);
      k in ss' &&
      (Finished(ss'[k]) ==> ss'[k].answers == Answers(w.log) && ViewOf(st', u) == ViewOf(w.server, u))
  {
    hide Inv, Interleave, HandleAll, ViewOf, EventOf, ForeignEvent, Unknown;
    TraceIsOwn(x, from.store, w, run, u);
    ReadsAll(run);
    IsolationInGoodStore(x.crypto, from.store, ss, schedule, k, u);
  }

  lemma SharedIsGood(st: Store, ss: map<nat, Sess>, k: nat, u: Bytes, run: seq<Event>)
    requires Shared(st, ss, k, u, run)
    ensures Inv(st)
  {
    hide Inv;
  }

  lemma {:induction false} LastUploadIsOwn(log: Log, u: Bytes)
    requires AllOf(log, u) && LastUpload(log).Some?
    ensures LastUpload(log).value.uid == u
  {
    if log[|log| - 1].code != SEND_FILE {
      LastUploadIsOwn(log[..|log| - 1], u);
    }
  }

  lemma ViewIsIntact(x: Setting, st: Store, st': Store, u: Bytes)
    requires ViewOf(st', u) == ViewOf(st, u)
    ensures Backup(x, st', u) == Backup(x, st, u)
    ensures ClientOf(st', u) == ClientOf(st, u)
  {
    hide StoredName, Dir;
    SameViewSamePath(st, st', u);
  }

  /** Alone at the server, the client's run is the trace of its packets. */
  lemma SoloTrace(x: Setting, w: World, ops: seq<Operation>) returns (run: seq<Event>)
    requires Ready(x, w) && w.log == [] && Solo(x)
    ensures x.Valid() && Traces(x, w.server, RunClient(x, w, ops), run)
  {
    hide Ready, RunClient, Traces, Inv, Polite, LogOk;
    ReadyValid(x, w);
    var from := Origin(false, w.server);
    SoundAtStart(x, from, w);
    RunSound(x, from, w, ops);
    run :| Traces(x, w.server, RunClient(x, w, ops), run);
  }

  lemma SoloIsPolite(x: Setting, u: Bytes)
    requires Solo(x)
    ensures Polite(x) && Alone(x, u)
  {
    hide TerminatesName;
  }

  /**
   Wherever a client stands: if its latest upload was validated, the disk it shares with any other
   threads holds a file with its checksum, and its own file but for more than a burst of 32 bits.
   */
  lemma SoundFileIsShared(
    x: Setting, from: Origin, w: World, run: seq<Event>,
    ss: map<nat, Sess>, schedule: seq<nat>, k: nat, u: Bytes)
    requires x.Valid() && Solo(x) && from.good && Sound(x, from, w)
    requires Traces(x, from.store, w, run) && AllOf(w.log, u) && LastUploadValidated(x.cfg, w.log)
    requires Shared(from.store, ss, k, u, run)
    requires forall j :: j in schedule ==> j in ss
    ensures var (st', ss') := Interleave(x.crypto, from.store, ss, schedule);
      && k in ss'
      && (Finished(ss'[k]) ==>
            var stored := Backup(x, st', u);
            && stored.Some? && Memcrc(stored.value) == Memcrc(x.cfg.file)
            && (forall p :: DifferByBurst(stored.value, x.cfg.file, p) ==> stored.value == x.cfg.file))
  {
    hide Traces, AllOf, Shared, Inv, Interleave, Finished, Validated, LastUpload, Backup, Memcrc, OnDisk;
    hide DifferByBurst, Solo, Polite, Alone, ViewOf, LogOk;
    SoloIsPolite(x, u);
    LastUploadIsOwn(w.log, u);
    assert FileGuarded(x, w, u);
    BackupIsIntact(x, w.server, u);
    RunAmongOthers(x, from, w, run, ss, schedule, k, u);
    var (st', ss') := Interleave(x.crypto, from.store, ss, schedule);
    if Finished(ss'[k]) {
      ViewIsIntact(x, w.server, st', u);
    }
  }

  /** So after any run of a registered client. */
  lemma ValidatedFileIsShared(
    x: Setting, w: World, ops: seq<Operation>, run: seq<Event>,
    ss: map<nat, Sess>, schedule: seq<nat>, k: nat, u: Bytes)
    requires Ready(x, w) && w.log == [] && Solo(x) && x.Valid()
    requires var w' := RunClient(x, w, ops);
      Traces(x, w.server, w', run) && AllOf(w'.log, u) && LastUploadValidated(x.cfg, w'.log)
    requires Shared(w.server, ss, k, u, run)
    requires forall j :: j in schedule ==> j in ss
    ensures var (st', ss') := Interleave(x.crypto, w.server, ss, schedule);
      && k in ss'
      && (Finished(ss'[k]) ==>
            var stored := Backup(x, st', u);
            && stored.Some? && Memcrc(stored.value) == Memcrc(x.cfg.file)
            && (forall p :: DifferByBurst(stored.value, x.cfg.file, p) ==> stored.value == x.cfg.file))
  {
    hide *;
    var from := Origin(true, w.server);
    SharedIsGood(w.server, ss, k, u, run);
    SoloIsPolite(x, u);
    SoundAtStart(x, from, w);
    RunSound(x, from, w, ops);
    SoundFileIsShared(x, from, RunClient(x, w, ops), run, ss, schedule, k, u);
  }

  /** And whenever a 900 is about to be sent, for the first time or again. */
  lemma ConfirmedFileIsShared(
    x: Setting, from: Origin, w: World, n: nat, run: seq<Event>,
    ss: map<nat, Sess>, schedule: seq<nat>, k: nat, u: Bytes)
    requires Ready(x, w) && from.good && Sound(x, from, w) && Solo(x) && x.Valid()
    requires Continues(KeyPhase(x, w)) && Continues(FilePhase(x, KeyPhase(x, w).w))
    requires var w' := Confirming(x, FilePhase(x, KeyPhase(x, w).w).w, n);
      Traces(x, from.store, w', run) && AllOf(w'.log, u)
    requires Shared(from.store, ss, k, u, run)
    requires forall j :: j in schedule ==> j in ss
    ensures var (st', ss') := Interleave(x.crypto, from.store, ss, schedule);
      && k in ss'
      && (Finished(ss'[k]) ==>
            var stored := Backup(x, st', u);
            && stored.Some? && Memcrc(stored.value) == Memcrc(x.cfg.file)
            && (forall p :: DifferByBurst(stored.value, x.cfg.file, p) ==> stored.value == x.cfg.file))
  {
    hide *;
    KeyPhaseFacts(x, from, w);
    FilePhaseFacts(x, from, KeyPhase(x, w).w);
    var w1 := FilePhase(x, KeyPhase(x, w).w).w;
    ConfirmingSound(x, from, w1, n);
    SoundFileIsShared(x, from, Confirming(x, w1, n), run, ss, schedule, k, u);
  }

  /** And if the latest key exchange was accepted, the client's key is the one in the shared table. */
  lemma KeysAgreeShared(
    x: Setting, w: World, ops: seq<Operation>, run: seq<Event>,
    ss: map<nat, Sess>, schedule: seq<nat>, k: nat, u: Bytes)
    requires Ready(x, w) && w.log == [] && Solo(x) && x.crypto.NeverWrong()
    requires var w' := RunClient(x, w, ops); x.Valid() && Traces(x, w.server, w', run) && AllOf(w'.log, u)
    requires Shared(w.server, ss, k, u, run)
    requires forall j :: j in schedule ==> j in ss
    ensures var w' := RunClient(x, w, ops); var (st', ss') := Interleave(x.crypto, w.server, ss, schedule);
      && k in ss'
      && (Finished(ss'[k]) && LastKey(w'.log).Some? && KeyAccepted(LastKey(w'.log).value, u) ==>
            && u in st'.clients
            && w'.client.key == st'.clients[u].aesKey && |w'.client.key| == AES_KEY_SIZE)
  {
    hide Ready, RunClient, Traces, AllOf, Shared, Inv, Interleave, Finished, LastKey, KeyAccepted, Backup;
    hide Solo, Polite, Alone, ViewOf, Crypto.NeverWrong;
    var w' := RunClient(x, w, ops);
    SoloIsPolite(x, u);
    KeysAgreeAfterRuns(x, w, ops, u);
    RunAmongOthers(x, Origin(true, w.server), w', run, ss, schedule, k, u);
    var (st', ss') := Interleave(x.crypto, w.server, ss, schedule);
    if Finished(ss'[k]) {
      ViewIsIntact(x, w'.server, st', u);
    }
  }
}
