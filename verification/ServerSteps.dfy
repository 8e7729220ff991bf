/**
 The request handlers taken apart at the points where another thread may come in between: the
 database lock is held for one query, and a file is written, read or removed in one piece.
 */
module ServerSteps {
  import opened Bytes
  import opened Database
  import opened Protocol
  import opened Server
  import opened ServerHistory

  /** Where a handler stands: the query or file operation it does next, and what it holds. */
  datatype Task =
    | Ready
    | FindName(name: Bytes, draw: Draw)
    | InsertName(name: Bytes, draw: Draw)
    | StorePublicKey(uid: Bytes, payload: Bytes, draw: Draw)
    | LoadPublicKey(uid: Bytes, signIn: bool, draw: Draw)
    | StoreAesKey(uid: Bytes, signIn: bool, draw: Draw, rsa: Bytes)
    | LoadAesKey(uid: Bytes, payload: Bytes, file: Bytes)
    | LoadOwner(uid: Bytes, payload: Bytes, file: Bytes, data: Bytes)
    | WriteBackup(uid: Bytes, payload: Bytes, file: Bytes, data: Bytes, stem: Bytes)
    | LoadRowOwner(uid: Bytes, payload: Bytes, file: Bytes)
    | InsertRow(uid: Bytes, payload: Bytes, file: Bytes, stem: Bytes)
    | LoadCrcOwner(uid: Bytes, payload: Bytes, file: Bytes)
    | ReadBackup(uid: Bytes, payload: Bytes, file: Bytes, stem: Bytes)
    | Confirm(uid: Bytes, file: Bytes)
    | LoadAbortOwner(uid: Bytes, file: Bytes)
    | RemoveBackup(uid: Bytes, file: Bytes, stem: Bytes)
    | DeleteRow(uid: Bytes, file: Bytes)
    | Done(answer: Option<Response>)

  const FAILED: Task := Done(Some(ERROR))

  /** The part of a handler before its first query. */
  function Start(c: Crypto, e: Event): Task {
    var r := e.request;
    if r.version != VERSION then FAILED
    else if r.code == REGISTER then
      if IsAscii(r.payload) then FindName(r.payload, e.draw) else FAILED
    else if r.code == S_PUBLIC_KEY then
      if |r.payload| <= PUBLIC_KEY_SIZE then FAILED else StorePublicKey(r.clientID, r.payload, e.draw)
    else if r.code == RECONNECT then LoadPublicKey(r.clientID, true, e.draw)
    else if r.code == SEND_FILE then
      (match NameIn(c, r.payload, NAME_INDEX, CONTENT_INDEX)
       case None => FAILED
       case Some(file) => LoadAesKey(r.clientID, r.payload, file))
    else if r.code == VALID_CRC || r.code == EXIT_CRC then
      (match NameIn(c, r.payload, 0, NAME_SIZE)
       case None => FAILED
       case Some(file) =>
         if r.code == VALID_CRC then Confirm(r.clientID, file) else LoadAbortOwner(r.clientID, file))
    else Done(None)
  }

  function KeyFailure(uid: Bytes, signIn: bool): Task {
    Done(Some(if signIn then Reply(RECONNECT_FAILED, uid) else ERROR))
  }

  /** One query or file operation, and the computation up to the next one. */
  ghost function MicroStep(c: Crypto, st: Store, t: Task): (Store, Task)
    requires c.Valid()
  {
    match t
    case Ready => (st, t)
    case FindName(name, draw) =>
      (st, match UuidOf(st, name)
           case Some(u) => Done(Some(Reply(REG_FAILED, u)))
           case None => InsertName(name, draw))
    case InsertName(name, draw) =>
      (match InsertClient(st, draw.uuid, name)
       case None => (st, FAILED)
       case Some(st') => (st', Done(Some(Reply(REG_SUCCESSFUL, draw.uuid)))))
    case StorePublicKey(uid, payload, draw) =>
      (if |payload| < PUBLIC_KEY_SIZE then st
       else SetPublicKey(st, uid, payload[|payload| - PUBLIC_KEY_SIZE..]),
       LoadPublicKey(uid, false, draw))
    case LoadPublicKey(uid, signIn, draw) =>
      (st, match ClientOf(st, uid)
           case None => KeyFailure(uid, signIn)
           case Some(row) =>
             if row.publicKey == PUBLIC_KEY_PLACEHOLDER then KeyFailure(uid, signIn)
             else match c.importKey(row.publicKey)
               case None => KeyFailure(uid, signIn)
               case Some(rsa) => StoreAesKey(uid, signIn, draw, rsa))
    case StoreAesKey(uid, signIn, draw, rsa) =>
      (SetAesKey(st, uid, draw.aesKey),
       match c.oaepEncrypt(rsa, draw.seed, draw.aesKey)
       case None => KeyFailure(uid, signIn)
       case Some(key) => Done(Some(Reply(if signIn then OK_RECONNECT else IN_PUBLIC_OUT_AES, uid + key))))
    case LoadAesKey(uid, payload, file) =>
      (st, match ClientOf(st, uid)
           case None => FAILED
           case Some(row) =>
             match Content(c, row.aesKey, payload)
             case None => FAILED
             case Some(data) => LoadOwner(uid, payload, file, data))
    case LoadOwner(uid, payload, file, data) =>
      (st, match ClientOf(st, uid)
           case None => FAILED
           case Some(row) => WriteBackup(uid, payload, file, data, Stem(row.userName)))
    case WriteBackup(uid, payload, file, data, stem) =>
      if file == [] then (st, FAILED)
      else (WriteFile(st, stem, file, data), LoadRowOwner(uid, payload, file))
    case LoadRowOwner(uid, payload, file) =>
      (st, match ClientOf(st, uid)
           case None => FAILED
           case Some(row) => InsertRow(uid, payload, file, Stem(row.userName)))
    case InsertRow(uid, payload, file, stem) =>
      (InsertFile(st, uid, file, stem), LoadCrcOwner(uid, payload, file))
    case LoadCrcOwner(uid, payload, file) =>
      (st, match ClientOf(st, uid)
           case None => FAILED
           case Some(row) => ReadBackup(uid, payload, file, Stem(row.userName)))
    case ReadBackup(uid, payload, file, stem) =>
      // `readfile` ends the thread when the file is gone
      (st, match ReadFile(st, stem, file)
           case None => Done(None)
           case Some(data) => Done(Some(CrcReply(uid, payload, file, data))))
    case Confirm(uid, file) => (SetVerified(st, uid, file), Done(Some(Reply(MSG_RECEIVED, uid))))
    case LoadAbortOwner(uid, file) =>
      (st, match ClientOf(st, uid)
           case None => DeleteRow(uid, file)
           case Some(row) => RemoveBackup(uid, file, Stem(row.userName)))
    case RemoveBackup(uid, file, stem) => (RemoveFile(st, stem, file), DeleteRow(uid, file))
    case DeleteRow(uid, file) => (DeleteUnverified(st, uid, file), Done(Some(Reply(MSG_RECEIVED, uid))))
    case Done(_) => (st, t)
  }

  /** At most one of the two tables and the disk is different. */
  predicate OneTable(st: Store, st': Store) {
    || (st'.files == st.files && st'.disk == st.disk)
    || (st'.clients == st.clients && st'.disk == st.disk)
    || (st'.clients == st.clients && st'.files == st.files)
  }

  lemma OneTableOfClients(st: Store, uid: Bytes, name: Bytes, key: Bytes)
    ensures OneTable(st, SetPublicKey(st, uid, key)) && OneTable(st, SetAesKey(st, uid, key))
    ensures InsertClient(st, uid, name).Some? ==> OneTable(st, InsertClient(st, uid, name).value)
  {
  }

  lemma OneTableOfFiles(st: Store, uid: Bytes, name: Bytes, path: Bytes)
    ensures OneTable(st, InsertFile(st, uid, name, path)) && OneTable(st, SetVerified(st, uid, name))
    ensures OneTable(st, DeleteUnverified(st, uid, name))
  {
  }

  lemma OneDisk(st: Store, stem: Bytes, name: Bytes, data: Bytes)
    ensures OneTable(st, WriteFile(st, stem, name, data)) && OneTable(st, RemoveFile(st, stem, name))
    ensures OneTable(st, st)
  {
  }

  lemma StepOfOneTable(c: Crypto, st: Store, t: Task)
    requires c.Valid()
    ensures OneTable(st, MicroStep(c, st, t).0)
  {
    hide OneTable, UuidOf, Content, CrcReply, Stem, ClientOf, ReadFile, InsertClient, SetPublicKey, SetAesKey,
         WriteFile, RemoveFile, InsertFile, SetVerified, DeleteUnverified;
    OneDisk(st, [], [], []);
    match t
    case InsertName(name, draw) => OneTableOfClients(st, draw.uuid, name, []);
    case StorePublicKey(uid, payload, _) =>
      if |payload| >= PUBLIC_KEY_SIZE {
        OneTableOfClients(st, uid, [], payload[|payload| - PUBLIC_KEY_SIZE..]);
      }
    case StoreAesKey(uid, _, draw, _) => OneTableOfClients(st, uid, [], draw.aesKey);
    case WriteBackup(_, _, file, data, stem) => OneDisk(st, stem, file, data);
    case InsertRow(uid, _, file, stem) => OneTableOfFiles(st, uid, file, stem);
    case Confirm(uid, file) => OneTableOfFiles(st, uid, file, []);
    case RemoveBackup(_, file, stem) => OneDisk(st, stem, file, []);
    case DeleteRow(uid, file) => OneTableOfFiles(st, uid, file, []);
    case _ =>
  }

  /**
   No step does more than one thing: it reads, and leaves the store as it is; or it writes to one table or
   to the disk, and learns nothing by it but whether an insert of a client was refused.
   */
  lemma OneOperation(c: Crypto, st: Store, other: Store, t: Task)
    requires c.Valid()
    ensures var (st', t') := MicroStep(c, st, t);
      OneTable(st, st') && (st' == st || t' == MicroStep(c, other, t).1 || t.InsertName?)
  {
    hide OneTable, UuidOf, Content, CrcReply, Stem, ClientOf, ReadFile, InsertClient, SetPublicKey, SetAesKey,
         WriteFile, RemoveFile, InsertFile, SetVerified, DeleteUnverified;
    StepOfOneTable(c, st, t);
  }

  /** How many more steps a task takes at most. */
  function Rank(t: Task): nat {
    match t
    case StorePublicKey(_, _, _) => 3
    case LoadPublicKey(_, _, _) => 2
    case StoreAesKey(_, _, _, _) => 1
    case LoadAesKey(_, _, _) => 7
    case LoadOwner(_, _, _, _) => 6
    case WriteBackup(_, _, _, _, _) => 5
    case LoadRowOwner(_, _, _) => 4
    case InsertRow(_, _, _, _) => 3
    case LoadCrcOwner(_, _, _) => 2
    case ReadBackup(_, _, _, _) => 1
    case Confirm(_, _) => 1
    case LoadAbortOwner(_, _) => 3
    case RemoveBackup(_, _, _) => 2
    case DeleteRow(_, _) => 1
    case FindName(_, _) => 2
    case InsertName(_, _) => 1
    case Ready => 0
    case Done(_) => 0
  }

  predicate Running(t: Task) {
    !t.Ready? && !t.Done?
  }

  /** Every handler comes to an end: each step lowers the rank. */
  lemma MicroStepProgress(c: Crypto, st: Store, t: Task)
    requires c.Valid() && Running(t)
    ensures Rank(MicroStep(c, st, t).1) < Rank(t)
    ensures !MicroStep(c, st, t).1.Ready?
  {
    hide UuidOf, Content, CrcReply, Stem, WriteFile, RemoveFile, InsertFile, SetVerified, DeleteUnverified;
  }

  /** A task run to its end with nothing in between. */
  ghost function Finish(c: Crypto, st: Store, t: Task): (Store, Option<Response>)
    requires c.Valid() && !t.Ready?
    decreases Rank(t)
  {
    if t.Done? then (st, t.answer)
    else
      MicroStepProgress(c, st, t);
      var (st', t') := MicroStep(c, st, t);
      Finish(c, st', t')
  }

  lemma FinishNext(c: Crypto, st: Store, t: Task)
    requires c.Valid() && !t.Ready?
    ensures var (st', t') := MicroStep(c, st, t); !t'.Ready? && Finish(c, st, t) == Finish(c, st', t')
  {
    hide UuidOf, Content, CrcReply, Stem, WriteFile, RemoveFile, InsertFile, SetVerified, DeleteUnverified;
    if Running(t) {
      MicroStepProgress(c, st, t);
    }
  }

  /** `n` steps in a row. */
  ghost function MicroSteps(c: Crypto, st: Store, t: Task, n: nat): (Store, Task)
    requires c.Valid()
    decreases n
  {
    if n == 0 then (st, t)
    else
      var (st', t') := MicroStep(c, st, t);
      MicroSteps(c, st', t', n - 1)
  }

  lemma {:induction false} FinishSteps(c: Crypto, st: Store, t: Task, n: nat)
    requires c.Valid() && !t.Ready?
    ensures var (st', t') := MicroSteps(c, st, t, n);
      !t'.Ready? && Finish(c, st, t) == Finish(c, st', t')
    decreases n
  {
    hide MicroStep, Finish;
    if n > 0 {
      FinishNext(c, st, t);
      var (st', t') := MicroStep(c, st, t);
      FinishSteps(c, st', t', n - 1);
    }
  }

  lemma SaveFinishes(c: Crypto, st: Store, uid: Bytes, payload: Bytes, file: Bytes, data: Bytes)
    requires c.Valid() && uid in st.clients && file != []
    ensures var stem := Stem(st.clients[uid].userName);
      Finish(c, st, WriteBackup(uid, payload, file, data, stem)) ==
      (SaveFile(st, uid, file, data), Some(CrcReply(uid, payload, file, data)))
  {
    hide UuidOf, Content, CrcReply, Stem, NameIn, Finish;
    var stem := Stem(st.clients[uid].userName);
    var st1 := WriteFile(st, stem, file, data);
    var st2 := InsertFile(st1, uid, file, stem);
    FinishNext(c, st, WriteBackup(uid, payload, file, data, stem));
    FinishNext(c, st1, LoadRowOwner(uid, payload, file));
    FinishNext(c, st1, InsertRow(uid, payload, file, stem));
    FinishNext(c, st2, LoadCrcOwner(uid, payload, file));
    FinishNext(c, st2, ReadBackup(uid, payload, file, stem));
    assert ReadFile(st2, stem, file) == Some(data);
    DoneFinishes(c, st2, Some(CrcReply(uid, payload, file, data)));
  }

  lemma DoneFinishes(c: Crypto, st: Store, answer: Option<Response>)
    requires c.Valid()
    ensures Finish(c, st, Done(answer)) == (st, answer)
  {
  }

  lemma FileFinishes(c: Crypto, st: Store, e: Event)
    requires c.Valid() && e.request.version == VERSION && e.request.code == SEND_FILE
    ensures var (st', resp) := EncryptedFile(c, st, e.request.clientID, e.request.payload);
      Finish(c, st, Start(c, e)) == (st', Some(resp))
  {
    hide UuidOf, Content, CrcReply, Stem, NameIn, Finish, SaveFile;
    var uid, payload := e.request.clientID, e.request.payload;
    DoneFinishes(c, st, Some(ERROR));
    match NameIn(c, payload, NAME_INDEX, CONTENT_INDEX) {
      case None =>
      case Some(file) =>
        FinishNext(c, st, LoadAesKey(uid, payload, file));
        if uid in st.clients && Content(c, st.clients[uid].aesKey, payload).Some? {
          var data := Content(c, st.clients[uid].aesKey, payload).value;
          var stem := Stem(st.clients[uid].userName);
          FinishNext(c, st, LoadOwner(uid, payload, file, data));
          if file == [] {
            FinishNext(c, st, WriteBackup(uid, payload, file, data, stem));
          } else {
            SaveFinishes(c, st, uid, payload, file, data);
          }
        }
    }
  }

  lemma KeyFinishes(c: Crypto, st: Store, uid: Bytes, signIn: bool, draw: Draw)
    requires c.Valid()
    ensures var (st', key) := GenerateAesKey(c, st, uid, draw);
      Finish(c, st, LoadPublicKey(uid, signIn, draw)) ==
      (st', Some(match key
                 case None => KeyFailure(uid, signIn).answer.value
                 case Some(k) => Reply(if signIn then OK_RECONNECT else IN_PUBLIC_OUT_AES, uid + k)))
  {
    FinishSteps(c, st, LoadPublicKey(uid, signIn, draw), 2);
  }

  lemma AbortFinishes(c: Crypto, st: Store, uid: Bytes, file: Bytes)
    requires c.Valid()
    ensures Finish(c, st, LoadAbortOwner(uid, file)) ==
            (DeleteUnverified(DeleteFromBackup(st, uid, file), uid, file), Some(Reply(MSG_RECEIVED, uid)))
  {
    hide Stem, RemoveFile, DeleteUnverified;
    FinishSteps(c, st, LoadAbortOwner(uid, file), 2);
  }

  /** Undisturbed, the steps add up to the handler. */
  lemma FinishIsHandle(c: Crypto, st: Store, e: Event)
    requires c.Valid()
    ensures Finish(c, st, Start(c, e)) == Handle(c, st, e.request, e.draw)
  {
    hide UuidOf, Content, CrcReply, Stem, NameIn, GenerateAesKey, EncryptedFile, DeleteUnverified, SetVerified,
         SetPublicKey, InsertClient, DeleteFromBackup, IsAscii;
    var r := e.request;
    var uid := r.clientID;
    if r.version != VERSION {
    } else if r.code == SEND_FILE {
      FileFinishes(c, st, e);
    } else if r.code == RECONNECT {
      KeyFinishes(c, st, uid, true, e.draw);
    } else if r.code == S_PUBLIC_KEY {
      if |r.payload| > PUBLIC_KEY_SIZE {
        FinishNext(c, st, Start(c, e));
        var st1 := SetPublicKey(st, uid, r.payload[|r.payload| - PUBLIC_KEY_SIZE..]);
        KeyFinishes(c, st1, uid, false, e.draw);
      }
    } else if r.code == REGISTER {
      FinishSteps(c, st, Start(c, e), 2);
    } else if r.code == VALID_CRC {
      FinishSteps(c, st, Start(c, e), 1);
    } else if r.code == EXIT_CRC {
      match NameIn(c, r.payload, 0, NAME_SIZE) {
        case None =>
        case Some(file) => AbortFinishes(c, st, uid, file);
      }
    }
  }
}
