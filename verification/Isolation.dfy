/**
 A client is not affected by other sessions, whatever they ask for and however their queries and
 file operations interleave with its own: its rows, directory and answers are those of its own
 requests handled alone, one whole request after the other.  Other sessions may register, too.
 */
module Isolation {
  import opened Bytes
  import opened Database
  import opened Protocol
  import opened Server
  import opened ServerHistory
  import opened ServerSteps

  /** A session: the handler in progress, requests to come, answers given (`None`: none sent). */
  datatype Sess = Sess(task: Task, queue: seq<Event>, answers: seq<Option<Response>>)

  /** What follows an unknown code is never read. */
  function Rest(queue: seq<Event>): seq<Event>
    requires queue != []
  {
    if Unknown(queue[0].request) then [] else queue[1..]
  }

  /** The requests a session reads. */
  function Read(queue: seq<Event>): seq<Event>
    decreases |queue|
  {
    if queue == [] then [] else [queue[0]] + Read(Rest(queue))
  }

  /** One step of a session: take the next request, do one step of it, or send its answer. */
  ghost function SessStep(c: Crypto, st: Store, se: Sess): (Store, Sess)
    requires c.Valid()
  {
    match se.task
    case Ready =>
      if se.queue == [] then (st, se)
      else (st, Sess(Start(c, se.queue[0]), Rest(se.queue), se.answers))
    case Done(answer) => (st, Sess(Ready, se.queue, se.answers + [answer]))
    case _ =>
      var (st', t') := MicroStep(c, st, se.task);
      (st', se.(task := t'))
  }

  /** Threads take steps in the order `schedule` names them. */
  ghost function Interleave(c: Crypto, st: Store, ss: map<nat, Sess>, schedule: seq<nat>): (Store, map<nat, Sess>)
    requires c.Valid()
    requires forall j :: j in schedule ==> j in ss
    decreases schedule
  {
    if schedule == [] then (st, ss)
    else
      var j := schedule[0];
      var (st', se') := SessStep(c, st, ss[j]);
      Interleave(c, st', ss[j := se'], schedule[1..])
  }

  // ---- what belongs to one client -------------------------------------------------------------

  datatype View = View(client: Option<ClientRow>, row: Option<FileRow>, dir: map<Bytes, Bytes>)

  ghost function ViewOf(st: Store, uid: Bytes): View {
    View(ClientOf(st, uid), RowOf(st, uid), Dir(st, PathOf(st, uid)))
  }

  /** A task of client `u`, holding no directory but `u`'s. */
  ghost predicate TaskOf(t: Task, u: Bytes, stem: Bytes) {
    match t
    case Ready => true
    case Done(_) => true
    case FindName(_, _) => false
    case InsertName(_, _) => false
    case WriteBackup(uid, _, _, _, s) => uid == u && s == stem
    case InsertRow(uid, _, _, s) => uid == u && s == stem
    case ReadBackup(uid, _, _, s) => uid == u && s == stem
    case RemoveBackup(uid, _, s) => uid == u && s == stem
    case _ => t.uid == u
  }

  /** A task of anyone else, registrations included, that does not hold `u`'s directory. */
  ghost predicate ForeignTask(t: Task, u: Bytes, stem: Bytes) {
    match t
    case Ready => true
    case Done(_) => true
    case FindName(name, _) => Terminated(name)
    case InsertName(name, _) => Terminated(name) && Stem(name) != stem
    case WriteBackup(uid, _, _, _, s) => uid != u && s != stem
    case RemoveBackup(uid, _, s) => uid != u && s != stem
    case _ => t.uid != u
  }

  ghost predicate EventOf(e: Event, u: Bytes) {
    e.request.clientID == u && e.request.code != REGISTER
  }

  ghost predicate ForeignEvent(e: Event, u: Bytes) {
    (e.request.code == REGISTER || e.request.clientID != u) && TerminatesName(e.request)
  }

  ghost predicate SessOf(se: Sess, u: Bytes, stem: Bytes) {
    TaskOf(se.task, u, stem) && forall e :: e in se.queue ==> EventOf(e, u)
  }

  ghost predicate ForeignSess(se: Sess, u: Bytes, stem: Bytes) {
    ForeignTask(se.task, u, stem) && forall e :: e in se.queue ==> ForeignEvent(e, u)
  }

  /** `u` is registered under a name that ends in NUL, and its directory is its own. */
  ghost predicate Lone(st: Store, u: Bytes) {
    && u in st.clients && Terminated(st.clients[u].userName)
    && forall v :: v in st.clients && v != u ==> PathOf(st, v) != PathOf(st, u)
  }

  ghost predicate SameNames(st: Store, st': Store) {
    && st'.clients.Keys == st.clients.Keys
    && forall u :: u in st.clients ==> st'.clients[u].userName == st.clients[u].userName
  }

  /** In a good store every registered client is alone. */
  lemma InvLone(st: Store, u: Bytes)
    requires Inv(st) && u in st.clients
    ensures Lone(st, u)
  {
    hide RowOk, Terminated, PathOf;
    forall v | v in st.clients && v != u ensures PathOf(st, v) != PathOf(st, u) {
      StemsDiffer(st, u, v);
    }
  }

  lemma StartOf(c: Crypto, e: Event, u: Bytes, stem: Bytes)
    requires EventOf(e, u)
    ensures TaskOf(Start(c, e), u, stem)
  {
    hide NameIn;
  }

  lemma StartForeign(c: Crypto, e: Event, u: Bytes, stem: Bytes)
    requires ForeignEvent(e, u)
    ensures ForeignTask(Start(c, e), u, stem)
  {
    hide NameIn, Terminated, IsAscii;
  }

  lemma StepKeepsNames(c: Crypto, st: Store, t: Task, u: Bytes)
    requires c.Valid() && TaskOf(t, u, PathOf(st, u))
    ensures SameNames(st, MicroStep(c, st, t).0)
  {
    hide UuidOf, Content, CrcReply, Stem, ReadFile, WriteFile, RemoveFile, InsertFile, SetVerified, DeleteUnverified;
    FileQueriesKeepClients(st);
  }

  lemma FileQueriesKeepClients(st: Store)
    ensures forall stem, name, data :: WriteFile(st, stem, name, data).clients == st.clients
    ensures forall stem, name :: RemoveFile(st, stem, name).clients == st.clients
    ensures forall uid, name, path :: InsertFile(st, uid, name, path).clients == st.clients
    ensures forall uid, name :: SetVerified(st, uid, name).clients == st.clients
    ensures forall uid, name :: DeleteUnverified(st, uid, name).clients == st.clients
  {
  }

  /** A step of this client keeps names, and stays within the client's own tasks. */
  lemma StepKeepsTask(c: Crypto, st: Store, t: Task, u: Bytes)
    requires c.Valid() && u in st.clients && TaskOf(t, u, PathOf(st, u))
    ensures var (st', t') := MicroStep(c, st, t); SameNames(st, st') && TaskOf(t', u, PathOf(st, u))
  {
    hide UuidOf, Content, CrcReply, Stem, SameNames, ReadFile, WriteFile, RemoveFile, InsertFile, SetVerified,
         DeleteUnverified;
    StepKeepsNames(c, st, t, u);
  }

  /** A step of anyone else leaves this client's view as it is. */
  lemma StepOfOther(c: Crypto, st: Store, t: Task, u: Bytes)
    requires c.Valid() && u in st.clients && ForeignTask(t, u, PathOf(st, u))
    ensures ViewOf(MicroStep(c, st, t).0, u) == ViewOf(st, u)
  {
    hide UuidOf, Content, CrcReply, Stem, Terminated;
  }

  /** Nor does it come to hold this client's directory. */
  lemma OtherStaysForeign(c: Crypto, st: Store, t: Task, u: Bytes)
    requires c.Valid() && Lone(st, u) && ForeignTask(t, u, PathOf(st, u))
    ensures ForeignTask(MicroStep(c, st, t).1, u, PathOf(st, u))
  {
    hide Content, CrcReply, Stem, Terminated, IsFirst, WriteFile, RemoveFile, InsertFile, SetVerified, DeleteUnverified;
    if t.FindName? && UuidOf(st, t.name).None? {
      StemDetermines(t.name, st.clients[u].userName);
    }
  }

  /** The names of all clients, but perhaps a new one with a directory of its own, stay. */
  lemma OtherStaysApart(c: Crypto, st: Store, t: Task, u: Bytes)
    requires c.Valid() && Lone(st, u) && ForeignTask(t, u, PathOf(st, u))
    ensures Lone(MicroStep(c, st, t).0, u)
  {
    hide UuidOf, Content, CrcReply, Stem, Terminated;
  }

  lemma AnswerOfOwn(c: Crypto, st: Store, solo: Store, t: Task, u: Bytes)
    requires c.Valid() && u in st.clients && TaskOf(t, u, PathOf(st, u))
    requires ViewOf(st, u) == ViewOf(solo, u)
    ensures MicroStep(c, st, t).1 == MicroStep(c, solo, t).1
  {
    hide UuidOf, Content, CrcReply, WriteFile, RemoveFile, InsertFile, SetVerified, DeleteUnverified;
  }

  lemma DiskOfOwn(c: Crypto, st: Store, solo: Store, t: Task, u: Bytes)
    requires c.Valid() && u in st.clients && TaskOf(t, u, PathOf(st, u)) && (t.WriteBackup? || t.RemoveBackup?)
    requires ViewOf(st, u) == ViewOf(solo, u)
    ensures ViewOf(MicroStep(c, st, t).0, u) == ViewOf(MicroStep(c, solo, t).0, u)
  {
    hide Stem;
  }

  lemma RowsOfOwn(c: Crypto, st: Store, solo: Store, t: Task, u: Bytes)
    requires c.Valid() && u in st.clients && TaskOf(t, u, PathOf(st, u)) && !t.WriteBackup? && !t.RemoveBackup?
    requires ViewOf(st, u) == ViewOf(solo, u)
    ensures ViewOf(MicroStep(c, st, t).0, u) == ViewOf(MicroStep(c, solo, t).0, u)
  {
    hide UuidOf, Content, CrcReply, Stem, IsAscii, Reply, ReadFile;
  }

  lemma ViewOfOwn(c: Crypto, st: Store, solo: Store, t: Task, u: Bytes)
    requires c.Valid() && u in st.clients && TaskOf(t, u, PathOf(st, u))
    requires ViewOf(st, u) == ViewOf(solo, u)
    ensures ViewOf(MicroStep(c, st, t).0, u) == ViewOf(MicroStep(c, solo, t).0, u)
  {
    hide MicroStep, TaskOf, ViewOf;
    if t.WriteBackup? || t.RemoveBackup? {
      DiskOfOwn(c, st, solo, t, u);
    } else {
      RowsOfOwn(c, st, solo, t, u);
    }
  }

  /** A step of this client depends on its view alone. */
  lemma StepOfOwn(c: Crypto, st: Store, solo: Store, t: Task, u: Bytes)
    requires c.Valid() && u in st.clients && TaskOf(t, u, PathOf(st, u))
    requires ViewOf(st, u) == ViewOf(solo, u)
    ensures MicroStep(c, st, t).1 == MicroStep(c, solo, t).1
    ensures ViewOf(MicroStep(c, st, t).0, u) == ViewOf(MicroStep(c, solo, t).0, u)
  {
    AnswerOfOwn(c, st, solo, t, u);
    ViewOfOwn(c, st, solo, t, u);
  }

  // ---- a session brought to its end alone -------------------------------------------------------

  /** Finish the request in progress, then the queue, with nothing in between. */
  ghost function Complete(c: Crypto, st: Store, se: Sess): (Store, seq<Option<Response>>)
    requires c.Valid()
  {
    if se.task.Ready? then
      var (st', rest) := HandleAll(c, st, Read(se.queue)); (st', se.answers + rest)
    else
      var (st1, answer) := Finish(c, st, se.task);
      var (st', rest) := HandleAll(c, st1, Read(se.queue));
      (st', se.answers + [answer] + rest)
  }

  /** A step on the way changes nothing about where the session alone would arrive. */
  lemma CompleteStep(c: Crypto, st: Store, se: Sess)
    requires c.Valid()
    ensures var (st', se') := SessStep(c, st, se); Complete(c, st', se') == Complete(c, st, se)
  {
    hide MicroStep, Handle, Start, Unknown;
    match se.task {
      case Ready =>
        if se.queue != [] {
          FinishIsHandle(c, st, se.queue[0]);
          StartNotReady(c, se.queue[0]);
          var (st1, answer) := Handle(c, st, se.queue[0].request, se.queue[0].draw);
          assert Read(se.queue)[1..] == Read(Rest(se.queue));
          var (_, rest) := HandleAll(c, st1, Read(Rest(se.queue)));
          assert se.answers + ([answer] + rest) == se.answers + [answer] + rest;
        }
      case Done(answer) =>
      case _ =>
        FinishNext(c, st, se.task);
    }
  }

  lemma StartNotReady(c: Crypto, e: Event)
    ensures !Start(c, e).Ready?
  {
    hide NameIn;
  }

  // ---- the theorem --------------------------------------------------------------------------------

  /** Thread `k` is the only session of client `u`. */
  ghost predicate Separate(st: Store, ss: map<nat, Sess>, k: nat, u: Bytes) {
    && Lone(st, u) && k in ss && SessOf(ss[k], u, PathOf(st, u))
    && forall j :: j in ss && j != k ==> ForeignSess(ss[j], u, PathOf(st, u))
  }

  lemma SamePath(st: Store, st': Store, u: Bytes)
    requires Lone(st, u) && (SameNames(st, st') || ViewOf(st', u) == ViewOf(st, u))
    ensures PathOf(st', u) == PathOf(st, u)
    ensures SameNames(st, st') ==> Lone(st', u)
  {
    hide Dir, Terminated;
  }

  lemma RestOfQueue(queue: seq<Event>)
    requires queue != []
    ensures queue[0] in queue && forall e :: e in Rest(queue) ==> e in queue
  {
  }

  lemma OwnStepSeparate(c: Crypto, st: Store, ss: map<nat, Sess>, k: nat, u: Bytes)
    requires c.Valid() && Separate(st, ss, k, u)
    ensures var (st', se') := SessStep(c, st, ss[k]); Separate(st', ss[k := se'], k, u)
  {
    hide MicroStep, Start, PathOf, Lone, SameNames, Rest, TaskOf, ForeignSess;
    var se := ss[k];
    if Running(se.task) {
      LoneRegistered(st, u);
      StepKeepsTask(c, st, se.task, u);
      SamePath(st, MicroStep(c, st, se.task).0, u);
    } else if se.task.Ready? && se.queue != [] {
      RestOfQueue(se.queue);
      StartOf(c, se.queue[0], u, PathOf(st, u));
    }
    ReadyTaskOf(u, PathOf(st, u));
  }

  lemma LoneRegistered(st: Store, u: Bytes)
    requires Lone(st, u)
    ensures u in st.clients
  {
  }

  lemma ReadyTaskOf(u: Bytes, stem: Bytes)
    ensures TaskOf(Ready, u, stem) && ForeignTask(Ready, u, stem)
  {
  }

  lemma OtherStepSeparate(c: Crypto, st: Store, ss: map<nat, Sess>, j: nat, k: nat, u: Bytes)
    requires c.Valid() && Separate(st, ss, k, u) && j in ss && j != k
    ensures var (st', se') := SessStep(c, st, ss[j]);
      Separate(st', ss[j := se'], k, u) && ViewOf(st', u) == ViewOf(st, u)
  {
    hide MicroStep, Start, PathOf, Lone, SameNames, Rest, TaskOf, ForeignTask, ViewOf;
    var se := ss[j];
    if Running(se.task) {
      LoneRegistered(st, u);
      StepOfOther(c, st, se.task, u);
      OtherStaysForeign(c, st, se.task, u);
      OtherStaysApart(c, st, se.task, u);
      SamePath(st, MicroStep(c, st, se.task).0, u);
    } else if se.task.Ready? && se.queue != [] {
      RestOfQueue(se.queue);
      StartForeign(c, se.queue[0], u, PathOf(st, u));
    }
    ReadyTaskOf(u, PathOf(st, u));
  }

  lemma OwnStepView(c: Crypto, st: Store, solo: Store, ss: map<nat, Sess>, k: nat, u: Bytes)
    requires c.Valid() && Separate(st, ss, k, u) && ViewOf(st, u) == ViewOf(solo, u)
    ensures SessStep(c, st, ss[k]).1 == SessStep(c, solo, ss[k]).1
    ensures ViewOf(SessStep(c, st, ss[k]).0, u) == ViewOf(SessStep(c, solo, ss[k]).0, u)
  {
    hide MicroStep, Start, ViewOf, PathOf, Lone, ForeignSess;
    LoneRegistered(st, u);
    if Running(ss[k].task) {
      StepOfOwn(c, st, solo, ss[k].task, u);
    }
  }

  /** Beside the shared store, `solo` takes only the steps of thread `k`. */
  lemma {:induction false} Shadow(
    c: Crypto, st: Store, ss: map<nat, Sess>, schedule: seq<nat>, k: nat, u: Bytes, solo: Store)
    returns (solo': Store)
    requires c.Valid() && Separate(st, ss, k, u)
    requires forall j :: j in schedule ==> j in ss
    requires ViewOf(st, u) == ViewOf(solo, u)
    ensures var (st', ss') := Interleave(c, st, ss, schedule);
      && k in ss'
      && ViewOf(st', u) == ViewOf(solo', u)
      && Complete(c, solo', ss'[k]) == Complete(c, solo, ss[k])
      && (EndsWell(c, solo, ss[k], u) ==> EndsWell(c, solo', ss'[k], u))
    decreases schedule
  {
    hide SessStep, Complete, ViewOf, Separate, EndsWell;
    HasThread(st, ss, k, u);
    if schedule == [] {
      solo' := solo;
    } else {
      var j := schedule[0];
      assert j in schedule;
      var (st1, se1) := SessStep(c, st, ss[j]);
      var next := solo;
      if j == k {
        OwnStepSeparate(c, st, ss, k, u);
        OwnStepView(c, st, solo, ss, k, u);
        CompleteStep(c, solo, ss[k]);
        OwnStepEndsWell(c, st, solo, ss, k, u);
        next := SessStep(c, solo, ss[k]).0;
      } else {
        OtherStepSeparate(c, st, ss, j, k, u);
      }
      solo' := Shadow(c, st1, ss[j := se1], schedule[1..], k, u, next);
    }
  }

  lemma HasThread(st: Store, ss: map<nat, Sess>, k: nat, u: Bytes)
    requires Separate(st, ss, k, u)
    ensures k in ss
  {
  }

  /** All the session's requests have been answered. */
  predicate Finished(se: Sess) {
    se.task.Ready? && se.queue == []
  }

  /**
   However the steps of all threads interleave, and whatever the others ask for without this client's
   uuid, registrations included: once the client's requests are answered, its rows, its directory and
   its answers are those of its own requests handled alone and whole.
   */
  lemma IsolationOfClients(c: Crypto, st: Store, ss: map<nat, Sess>, schedule: seq<nat>, k: nat, u: Bytes)
    requires c.Valid() && Separate(st, ss, k, u)
    requires forall j :: j in schedule ==> j in ss
    requires ss[k].task.Ready? && ss[k].answers == []
    ensures var (st', ss') := Interleave(c, st, ss, schedule);
      && k in ss'
      && (Finished(ss'[k]) ==>
            var (alone, answers) := HandleAll(c, st, Read(ss[k].queue));
            ss'[k].answers == answers && ViewOf(st', u) == ViewOf(alone, u))
  {
    hide Handle, SessStep, ViewOf, Separate, Interleave, EndsWell;
    HasThread(st, ss, k, u);
    var solo := Shadow(c, st, ss, schedule, k, u, st);
    var (st', ss') := Interleave(c, st, ss, schedule);
    var (alone, answers) := HandleAll(c, st, Read(ss[k].queue));
    assert [] + answers == answers;
    if Finished(ss'[k]) {
      assert HandleAll(c, solo, []) == (solo, []);
      assert ss'[k].answers + [] == ss'[k].answers;
    }
  }

  /** The threads before their first step. */
  predicate AtStart(ss: map<nat, Sess>) {
    forall j :: j in ss ==> ss[j].task.Ready? && ss[j].answers == []
  }

  lemma SeparateAtStart(st: Store, ss: map<nat, Sess>, k: nat, u: Bytes)
    requires Inv(st) && u in st.clients && k in ss && AtStart(ss)
    requires forall e :: e in ss[k].queue ==> EventOf(e, u)
    requires forall j :: j in ss && j != k ==> forall e :: e in ss[j].queue ==> ForeignEvent(e, u)
    ensures Separate(st, ss, k, u)
  {
    hide Inv, Lone, EventOf, ForeignEvent;
    InvLone(st, u);
  }

  /** In a good store this holds for every registered client, with nothing more to ask of directories. */
  lemma IsolationInGoodStore(c: Crypto, st: Store, ss: map<nat, Sess>, schedule: seq<nat>, k: nat, u: Bytes)
    requires c.Valid() && Inv(st) && u in st.clients && k in ss && AtStart(ss)
    requires forall e :: e in ss[k].queue ==> EventOf(e, u)
    requires forall j :: j in ss && j != k ==> forall e :: e in ss[j].queue ==> ForeignEvent(e, u)
    requires forall j :: j in schedule ==> j in ss
    ensures var (st', ss') := Interleave(c, st, ss, schedule);
      && k in ss'
      && (Finished(ss'[k]) ==>
            var (alone, answers) := HandleAll(c, st, Read(ss[k].queue));
            ss'[k].answers == answers && ViewOf(st', u) == ViewOf(alone, u))
  {
    hide Inv, Interleave, HandleAll, ViewOf, Separate, EventOf, ForeignEvent, Read;
    SeparateAtStart(st, ss, k, u);
    IsolationOfClients(c, st, ss, schedule, k, u);
  }

  // ---- the client's row between requests -----------------------------------------------------------

  /** Left to itself, the request in progress ends with the client's row in order. */
  ghost predicate EndsWell(c: Crypto, st: Store, se: Sess, u: Bytes)
    requires c.Valid()
  {
    RowOk(if se.task.Ready? then st else Finish(c, st, se.task).0, u)
  }

  lemma SaveKeepsOwnRow(c: Crypto, st: Store, u: Bytes, payload: Bytes)
    requires c.Valid() && RowOk(st, u)
    ensures RowOk(EncryptedFile(c, st, u, payload).0, u)
  {
    hide Content, NameIn, CrcReply, Stem;
  }

  lemma EndKeepsOwnRow(c: Crypto, st: Store, u: Bytes, code: nat, payload: Bytes)
    requires RowOk(st, u)
    ensures RowOk(ValidOrAbort(c, st, u, code, payload).0, u)
  {
    hide NameIn, Stem;
  }

  lemma KeysKeepRow(st: Store, st': Store, u: Bytes)
    requires RowOk(st, u) && SameButKeys(st, st')
    ensures RowOk(st', u)
  {
    hide Stem;
  }

  /** A request of the client keeps its row in order, whatever the rest of the store is like. */
  lemma OwnRequestKeepsRow(c: Crypto, st: Store, e: Event, u: Bytes)
    requires c.Valid() && EventOf(e, u) && RowOk(st, u)
    ensures RowOk(Handle(c, st, e.request, e.draw).0, u)
  {
    hide RowOk, Register, PublicKey, SignIn, EncryptedFile, ValidOrAbort, SameButKeys;
    var r := e.request;
    KeysChangeKeys(c, st, u, r.payload, e.draw);
    KeysKeepRow(st, PublicKey(c, st, u, r.payload, e.draw).0, u);
    KeysKeepRow(st, SignIn(c, st, u, e.draw).0, u);
    SaveKeepsOwnRow(c, st, u, r.payload);
    EndKeepsOwnRow(c, st, u, r.code, r.payload);
  }

  lemma OwnStepEndsWell(c: Crypto, st: Store, solo: Store, ss: map<nat, Sess>, k: nat, u: Bytes)
    requires c.Valid() && Separate(st, ss, k, u)
    ensures var (solo', se') := SessStep(c, solo, ss[k]);
      EndsWell(c, solo, ss[k], u) ==> EndsWell(c, solo', se', u)
  {
    hide MicroStep, Handle, Start, RowOk, Lone, ForeignSess, Rest;
    var se := ss[k];
    if se.task.Ready? {
      if se.queue != [] {
        RestOfQueue(se.queue);
        StartNotReady(c, se.queue[0]);
        FinishIsHandle(c, solo, se.queue[0]);
        if RowOk(solo, u) {
          OwnRequestKeepsRow(c, solo, se.queue[0], u);
        }
      }
    } else {
      FinishNext(c, solo, se.task);
    }
  }

  lemma ViewKeepsRow(st: Store, st': Store, u: Bytes)
    requires ViewOf(st', u) == ViewOf(st, u) && RowOk(st, u)
    ensures RowOk(st', u)
  {
    hide PathOf, Dir;
    assert u in st.files ==> u in st.clients;
    if u in st'.files {
      SameViewSamePath(st, st', u);
    }
  }

  lemma SameViewSamePath(st: Store, st': Store, u: Bytes)
    requires ViewOf(st', u) == ViewOf(st, u)
    ensures PathOf(st', u) == PathOf(st, u) && (u in st.clients <==> u in st'.clients)
    ensures RowOf(st', u) == RowOf(st, u) && Dir(st', PathOf(st', u)) == Dir(st, PathOf(st, u))
  {
    hide Dir;
  }

  /**
   With one session a client, its row is in order whenever that session is between two requests,
   however the steps of all threads interleave.
   */
  lemma RowOkBetweenRequests(c: Crypto, st: Store, ss: map<nat, Sess>, schedule: seq<nat>, k: nat, u: Bytes)
    requires c.Valid() && Separate(st, ss, k, u) && RowOk(st, u)
    requires forall j :: j in schedule ==> j in ss
    requires ss[k].task.Ready?
    ensures var (st', ss') := Interleave(c, st, ss, schedule);
      k in ss' && (ss'[k].task.Ready? ==> RowOk(st', u))
  {
    hide SessStep, ViewOf, Separate, Interleave, Complete, RowOk;
    var solo := Shadow(c, st, ss, schedule, k, u, st);
    var (st', ss') := Interleave(c, st, ss, schedule);
    if ss'[k].task.Ready? {
      ViewKeepsRow(solo, st', u);
    }
  }

  // ---- every session gets there -------------------------------------------------------------------

  const STEPS_PER_REQUEST: nat := 9

  function TaskWork(t: Task): nat {
    if t.Ready? then 0 else 1 + Rank(t)
  }

  /** A bound on the steps a session still needs. */
  function Work(se: Sess): nat {
    TaskWork(se.task) + STEPS_PER_REQUEST * |se.queue|
  }

  lemma StartWork(c: Crypto, e: Event)
    ensures TaskWork(Start(c, e)) < STEPS_PER_REQUEST
  {
    hide NameIn;
  }

  lemma StepWork(c: Crypto, st: Store, se: Sess)
    requires c.Valid()
    ensures var (_, se') := SessStep(c, st, se); Work(se') < Work(se) || (Finished(se) && se' == se)
  {
    hide MicroStep, Start;
    if Running(se.task) {
      MicroStepProgress(c, st, se.task);
    } else if se.task.Ready? && se.queue != [] {
      StartWork(c, se.queue[0]);
    }
  }

  /** How often thread `k` is given a step. */
  function Turns(schedule: seq<nat>, k: nat): nat {
    if schedule == [] then 0 else (if schedule[0] == k then 1 else 0) + Turns(schedule[1..], k)
  }

  lemma {:induction false} TurnsDoWork(c: Crypto, st: Store, ss: map<nat, Sess>, schedule: seq<nat>, k: nat)
    requires c.Valid() && k in ss
    requires forall j :: j in schedule ==> j in ss
    ensures var (st', ss') := Interleave(c, st, ss, schedule);
      k in ss' && (Finished(ss'[k]) || Work(ss'[k]) + Turns(schedule, k) <= Work(ss[k]))
    decreases schedule
  {
    hide SessStep, Work;
    if schedule != [] {
      var j := schedule[0];
      assert j in schedule;
      var (st1, se1) := SessStep(c, st, ss[j]);
      var ss1 := ss[j := se1];
      TurnsDoWork(c, st1, ss1, schedule[1..], k);
      if j == k {
        StepWork(c, st, ss[k]);
        if se1 == ss[k] && Finished(ss[k]) {
          FinishedStays(c, st1, ss1, schedule[1..], k);
        }
      }
    }
  }

  lemma {:induction false} FinishedStays(c: Crypto, st: Store, ss: map<nat, Sess>, schedule: seq<nat>, k: nat)
    requires c.Valid() && k in ss && Finished(ss[k])
    requires forall j :: j in schedule ==> j in ss
    ensures var (st', ss') := Interleave(c, st, ss, schedule); k in ss' && ss'[k] == ss[k]
    decreases schedule
  {
    hide MicroStep, Start;
    if schedule != [] {
      var j := schedule[0];
      assert j in schedule;
      var (st1, se1) := SessStep(c, st, ss[j]);
      FinishedStays(c, st1, ss[j := se1], schedule[1..], k);
    }
  }

  /** Nine turns for every request are enough, whatever the other threads do in between. */
  lemma EnoughTurns(c: Crypto, st: Store, ss: map<nat, Sess>, schedule: seq<nat>, k: nat)
    requires c.Valid() && k in ss && ss[k].task.Ready?
    requires forall j :: j in schedule ==> j in ss
    requires Turns(schedule, k) >= STEPS_PER_REQUEST * |ss[k].queue|
    ensures var (st', ss') := Interleave(c, st, ss, schedule); k in ss' && Finished(ss'[k])
  {
    TurnsDoWork(c, st, ss, schedule, k);
  }
}
