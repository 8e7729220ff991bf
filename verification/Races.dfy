/**
 Where the handlers are not atomic enough, names do not keep clients apart, or a later request
 undoes an earlier one: what then happens, and exactly when it does not.
 */
module Races {
  import opened Bytes
  import opened Database
  import opened Protocol
  import opened Server
  import opened ServerHistory
  import opened ServerSteps

  /** The INSERT of a registration keeps names unique exactly when the name is still unused. */
  lemma InsertKeepsUniqueNames(c: Crypto, st: Store, name: Bytes, draw: Draw)
    requires c.Valid() && UniqueNames(st) && draw.uuid !in st.clients
    ensures UniqueNames(MicroStep(c, st, InsertName(name, draw)).0) <==> UuidOf(st, name).None?
  {
    var st' := MicroStep(c, st, InsertName(name, draw)).0;
    if u :| u in st.clients && st.clients[u].userName == name {
      assert st'.clients[u].userName == st'.clients[draw.uuid].userName;
    }
  }

  /**
   Two sessions that both look for a free name before either inserts it are both told they are
   registered under it.
   */
  lemma RegistrationRace(c: Crypto, st: Store, name: Bytes, a: Draw, b: Draw)
    requires c.Valid() && UuidOf(st, name).None?
    requires a.uuid !in st.clients && b.uuid !in st.clients && a.uuid != b.uuid
    ensures var ta := MicroStep(c, st, FindName(name, a)).1;
      var tb := MicroStep(c, st, FindName(name, b)).1;
      var (st1, da) := MicroStep(c, st, ta);
      var (st2, db) := MicroStep(c, st1, tb);
      && da == Done(Some(Reply(REG_SUCCESSFUL, a.uuid)))
      && db == Done(Some(Reply(REG_SUCCESSFUL, b.uuid)))
      && !UniqueNames(st2)
  {
    var st1 := MicroStep(c, st, InsertName(name, a)).0;
    var st2 := MicroStep(c, st1, InsertName(name, b)).0;
    assert st2.clients[a.uuid].userName == st2.clients[b.uuid].userName;
  }

  /**
   Client `v` aborts a file while client `u` has an unverified row with its file on disk.  The
   file of `u` survives exactly when the two directories or the two file names differ.
   */
  lemma AbortSpares(c: Crypto, st: Store, u: Bytes, v: Bytes, payload: Bytes)
    requires u in st.clients && v in st.clients && u != v
    requires u in st.files && !st.files[u].verified && RowOk(st, u)
    requires NameIn(c, payload, 0, NAME_SIZE).Some?
    ensures RowOk(ValidOrAbort(c, st, v, EXIT_CRC, payload).0, u) <==>
            PathOf(st, u) != PathOf(st, v) || st.files[u].fileName != NameIn(c, payload, 0, NAME_SIZE).value
  {
    hide NameIn, Stem;
  }

  /**
   Two clients whose names differ only in a last byte share a directory, and a 902 of the one removes
   the other's file of that name.
   */
  lemma AbortCollides(c: Crypto, st: Store, stem: Bytes, a: byte, b: byte, u: Bytes, v: Bytes, payload: Bytes)
    requires u in st.clients && v in st.clients && a != b
    requires st.clients[u].userName == stem + [a] && st.clients[v].userName == stem + [b]
    requires u in st.files && !st.files[u].verified && RowOk(st, u)
    requires NameIn(c, payload, 0, NAME_SIZE) == Some(st.files[u].fileName)
    ensures !RowOk(ValidOrAbort(c, st, v, EXIT_CRC, payload).0, u)
  {
    hide NameIn, RowOk;
    assert (stem + [a])[|stem|] == a && (stem + [b])[|stem|] == b;
    AbortSpares(c, st, u, v, payload);
  }

  // ---- an upload and a 902 -------------------------------------------------------------------------

  /** An 828 that has written its file and not yet read it back. */
  predicate HasWritten(t: Task, uid: Bytes, payload: Bytes, file: Bytes, stem: Bytes) {
    || t == LoadRowOwner(uid, payload, file) || t == InsertRow(uid, payload, file, stem)
    || t == LoadCrcOwner(uid, payload, file) || t == ReadBackup(uid, payload, file, stem)
  }

  lemma InsertKeepsDisk(st: Store, uid: Bytes, file: Bytes, stem: Bytes)
    ensures var st' := InsertFile(st, uid, file, stem);
      && st'.clients == st.clients
      && Dir(st', PathOf(st', uid)) == Dir(st, PathOf(st, uid))
  {
  }

  lemma ReadAnswered(c: Crypto, st: Store, t: Task, uid: Bytes, payload: Bytes, file: Bytes)
    requires c.Valid() && HasWritten(t, uid, payload, file, PathOf(st, uid))
    requires t.LoadCrcOwner? || t.ReadBackup?
    ensures Finish(c, st, t).1.Some? <==>
            file in Dir(st, PathOf(st, uid)) || (uid !in st.clients && !t.ReadBackup?)
  {
    hide Stem, CrcReply;
    FinishSteps(c, st, t, 2);
  }

  /**
   An upload that has written its file is answered exactly when the file is still there when it is
   read back, or its client is not in the table; otherwise its thread ends without an answer.
   */
  lemma UploadAnswered(c: Crypto, st: Store, t: Task, uid: Bytes, payload: Bytes, file: Bytes)
    requires c.Valid() && HasWritten(t, uid, payload, file, PathOf(st, uid))
    ensures Finish(c, st, t).1.Some? <==>
            file in Dir(st, PathOf(st, uid)) || (uid !in st.clients && !t.ReadBackup?)
  {
    hide Stem, CrcReply, Finish, InsertFile, Dir;
    FinishNext(c, st, t);
    var st1 := InsertFile(st, uid, file, PathOf(st, uid));
    InsertKeepsDisk(st, uid, file, PathOf(st, uid));
    if t.LoadCrcOwner? || t.ReadBackup? {
      ReadAnswered(c, st, t, uid, payload, file);
    } else {
      ReadAnswered(c, st1, LoadCrcOwner(uid, payload, file), uid, payload, file);
      if t.LoadRowOwner? {
        DoneFinishes(c, st, Some(ERROR));
        FinishNext(c, st, InsertRow(uid, payload, file, PathOf(st, uid)));
      }
    }
  }

  lemma AbortedDisk(st: Store, uid: Bytes, v: Bytes, file: Bytes, g: Bytes)
    requires uid in st.clients && file in Dir(st, PathOf(st, uid))
    ensures var st1 := DeleteUnverified(DeleteFromBackup(st, v, g), v, g);
      && st1.clients == st.clients
      && (file in Dir(st1, PathOf(st1, uid)) <==> !(v in st.clients && PathOf(st, v) == PathOf(st, uid) && g == file))
  {
    hide Stem;
  }

  /**
   A 902 that comes between the writing and the reading back, of any client `v` and file `g`: the
   upload is still answered exactly when that 902 does not name the same file in the same directory.
   */
  lemma UploadRacesAbort(
    c: Crypto, st: Store, t: Task, uid: Bytes, payload: Bytes, file: Bytes, v: Bytes, g: Bytes)
    requires c.Valid() && HasWritten(t, uid, payload, file, PathOf(st, uid))
    requires uid in st.clients && file in Dir(st, PathOf(st, uid))
    ensures var (st1, _) := Finish(c, st, LoadAbortOwner(v, g));
      Finish(c, st1, t).1.Some? <==> !(v in st.clients && PathOf(st, v) == PathOf(st, uid) && g == file)
  {
    hide Stem, Finish, Dir, DeleteUnverified, DeleteFromBackup;
    AbortFinishes(c, st, v, g);
    AbortedDisk(st, uid, v, file, g);
    UploadAnswered(c, DeleteUnverified(DeleteFromBackup(st, v, g), v, g), t, uid, payload, file);
  }

  /** The store after an abort and the insertion of the upload's row. */
  lemma RowAfterRace(st: Store, uid: Bytes, file: Bytes, g: Bytes)
    requires uid in st.clients && file in Dir(st, PathOf(st, uid)) && RowOk(st, uid)
    ensures var st1 := DeleteUnverified(DeleteFromBackup(st, uid, g), uid, g);
      RowOk(InsertFile(st1, uid, file, PathOf(st, uid)), uid) <==>
      g != file || (uid in st.files && (st.files[uid].verified || st.files[uid].fileName != file))
  {
    hide Stem;
  }

  /** From the row's insertion on, an upload only reads. */
  lemma InsertionFinishes(c: Crypto, st: Store, uid: Bytes, payload: Bytes, file: Bytes)
    requires c.Valid() && uid in st.clients
    ensures Finish(c, st, LoadRowOwner(uid, payload, file)).0 == InsertFile(st, uid, file, PathOf(st, uid))
  {
    hide Stem, CrcReply, Finish, InsertFile, ReadFile;
    var st1 := InsertFile(st, uid, file, PathOf(st, uid));
    InsertKeepsDisk(st, uid, file, PathOf(st, uid));
    FinishNext(c, st, LoadRowOwner(uid, payload, file));
    FinishNext(c, st, InsertRow(uid, payload, file, PathOf(st, uid)));
    FinishNext(c, st1, LoadCrcOwner(uid, payload, file));
    FinishNext(c, st1, ReadBackup(uid, payload, file, PathOf(st, uid)));
    var t := MicroStep(c, st1, ReadBackup(uid, payload, file, PathOf(st, uid))).1;
    DoneFinishes(c, st1, t.answer);
  }

  /**
   Two sessions of one client: a 902 of file `g` between the file and the row of an upload leaves an
   unverified row without its file, unless it names another file, or the client had a row already that
   is verified or of another name.
   */
  lemma RowRacesAbort(c: Crypto, st: Store, uid: Bytes, payload: Bytes, file: Bytes, g: Bytes)
    requires c.Valid() && uid in st.clients && file in Dir(st, PathOf(st, uid)) && RowOk(st, uid)
    ensures var (st1, _) := Finish(c, st, LoadAbortOwner(uid, g));
      RowOk(Finish(c, st1, LoadRowOwner(uid, payload, file)).0, uid) <==>
      g != file || (uid in st.files && (st.files[uid].verified || st.files[uid].fileName != file))
  {
    hide Stem, Finish, Dir, DeleteUnverified, DeleteFromBackup, InsertFile, RowOk;
    AbortFinishes(c, st, uid, g);
    AbortedDisk(st, uid, uid, file, g);
    InsertionFinishes(c, DeleteUnverified(DeleteFromBackup(st, uid, g), uid, g), uid, payload, file);
    RowAfterRace(st, uid, file, g);
  }

  /** So a first upload and a 902 of its file can leave a row whose file is gone. */
  lemma RowWithoutFile(c: Crypto, st: Store, uid: Bytes, payload: Bytes, file: Bytes, data: Bytes)
    requires c.Valid() && uid in st.clients && uid !in st.files && file != []
    ensures var (st1, t) := MicroStep(c, st, WriteBackup(uid, payload, file, data, PathOf(st, uid)));
      var (st2, _) := Finish(c, st1, LoadAbortOwner(uid, file));
      t == LoadRowOwner(uid, payload, file) && !RowOk(Finish(c, st2, t).0, uid)
  {
    hide Stem, Finish;
    var st1 := WriteFile(st, PathOf(st, uid), file, data);
    RowRacesAbort(c, st1, uid, payload, file, file);
  }

  // ---- verified rows and the disk ------------------------------------------------------------------

  /**
   A verified row does not keep its file on disk: a 902 leaves the row, and removes the file exactly
   when it names it.
   */
  lemma AbortOfVerified(c: Crypto, st: Store, uid: Bytes, payload: Bytes)
    requires uid in st.clients && uid in st.files && st.files[uid].verified
    requires st.files[uid].fileName in Dir(st, PathOf(st, uid))
    requires NameIn(c, payload, 0, NAME_SIZE).Some?
    ensures var st' := ValidOrAbort(c, st, uid, EXIT_CRC, payload).0;
      && RowOf(st', uid) == RowOf(st, uid)
      && (st.files[uid].fileName in Dir(st', PathOf(st', uid)) <==>
            NameIn(c, payload, 0, NAME_SIZE).value != st.files[uid].fileName)
  {
    hide NameIn, Stem;
  }

  /** Nor its content: an upload replaces the file, exactly when it has the row's name. */
  lemma UploadOverVerified(c: Crypto, st: Store, uid: Bytes, payload: Bytes)
    requires c.Valid() && uid in st.clients && uid in st.files && st.files[uid].verified
    requires EncryptedFile(c, st, uid, payload).1.code == VALID_CRC_FILE
    ensures var st' := EncryptedFile(c, st, uid, payload).0;
      var name := NameIn(c, payload, NAME_INDEX, CONTENT_INDEX).value;
      var data := Content(c, st.clients[uid].aesKey, payload).value;
      && RowOf(st', uid) == RowOf(st, uid)
      && ReadFile(st', PathOf(st', uid), name) == Some(data)
      && (name != st.files[uid].fileName ==>
            ReadFile(st', PathOf(st', uid), st.files[uid].fileName) ==
            ReadFile(st, PathOf(st, uid), st.files[uid].fileName))
  {
    hide NameIn, Stem, Content, CrcReply;
  }

  // ---- registering and signing in again --------------------------------------------------------------

  /** Whoever registers a name a second time is refused, and told the uuid of the first. */
  lemma RegisterTwice(st: Store, payload: Bytes, first: Draw, second: Draw)
    requires Register(st, payload, first).1.code == REG_SUCCESSFUL
    ensures var (st', answer) := Register(st, payload, first);
      Register(st', payload, second) == (st', Reply(REG_FAILED, answer.payload))
  {
    hide IsAscii;
    var st' := Register(st, payload, first).0;
    assert st'.clients[first.uuid].userName == payload;
    assert forall u :: u in st.clients ==> st.clients[u].userName != payload;
  }

  /**
   A sign-in of a registered client: it is refused unless the client has sent a public key that can be
   imported and the new key can be encrypted under it.  The stored key stays exactly in the first two
   refusals; in the last one it is replaced, and no longer the one the client holds.
   */
  lemma RefusedSignIn(c: Crypto, st: Store, uid: Bytes, draw: Draw)
    requires uid in st.clients && draw.aesKey != st.clients[uid].aesKey
    ensures var (st', answer) := SignIn(c, st, uid, draw);
      var publicKey := st.clients[uid].publicKey;
      && (st' == st <==> publicKey == PUBLIC_KEY_PLACEHOLDER || c.importKey(publicKey).None?)
      && uid in st'.clients && (st' != st ==> st'.clients[uid].aesKey == draw.aesKey)
      && (answer.code == OK_RECONNECT <==>
            st' != st && c.oaepEncrypt(c.importKey(publicKey).value, draw.seed, draw.aesKey).Some?)
  {
  }
}
