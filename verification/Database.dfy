/**
 The server's two tables and its backup directory.  Every query is a function from store to
 store; the class keeps the same data in fields that its methods replace, one query at a time.
 Strings are the bytes of their UTF-8 encoding.
 */
module Database {
  import opened Bytes

  /** `rowid` is SQLite's own: rows of `clients` are never deleted, so it counts the insertions before. */
  datatype ClientRow = ClientRow(rowid: nat, userName: Bytes, publicKey: Bytes, aesKey: Bytes)

  datatype FileRow = FileRow(fileName: Bytes, pathName: Bytes, verified: bool)

  /** Both tables have the uuid as primary key.  A directory of backups is named by `Stem`. */
  datatype Store = Store(
    clients: map<Bytes, ClientRow>,
    files: map<Bytes, FileRow>,
    disk: map<Bytes, map<Bytes, Bytes>>)

  /** Python's `name[:-1]`: the user name without its last character. */
  function Stem(name: Bytes): Bytes {
    if name == [] then [] else name[..|name| - 1]
  }

  // b'public_key' and b'aes_key'
  const PUBLIC_KEY_PLACEHOLDER: Bytes := [0x70, 0x75, 0x62, 0x6c, 0x69, 0x63, 0x5f, 0x6b, 0x65, 0x79]
  const AES_KEY_PLACEHOLDER: Bytes := [0x61, 0x65, 0x73, 0x5f, 0x6b, 0x65, 0x79]

  // ---- the queries -------------------------------------------------------------------------

  /** The first row of this name in the order of insertion. */
  ghost predicate IsFirst(st: Store, name: Bytes, u: Bytes) {
    && u in st.clients && st.clients[u].userName == name
    && forall v :: v in st.clients && st.clients[v].userName == name ==> st.clients[u].rowid <= st.clients[v].rowid
  }

  lemma {:induction false} FirstExists(st: Store, u: Bytes)
    requires u in st.clients
    ensures exists first :: IsFirst(st, st.clients[u].userName, first)
    decreases st.clients[u].rowid
  {
    var name := st.clients[u].userName;
    if v :| v in st.clients && st.clients[v].userName == name && st.clients[v].rowid < st.clients[u].rowid {
      FirstExists(st, v);
    } else {
      assert IsFirst(st, name, u);
    }
  }

  /** SELECT uuid FROM clients WHERE user_name = ?, of which one row is fetched. */
  ghost function UuidOf(st: Store, name: Bytes): (r: Option<Bytes>)
    ensures r.None? <==> forall u :: u in st.clients ==> st.clients[u].userName != name
    ensures r.Some? ==> IsFirst(st, name, r.value)
  {
    if u :| u in st.clients && st.clients[u].userName == name then
      FirstExists(st, u);
      var first :| IsFirst(st, name, first);
      Some(first)
    else None
  }

  /** Row numbers are distinct and count up. */
  ghost predicate Numbered(clients: map<Bytes, ClientRow>) {
    && (forall u :: u in clients ==> clients[u].rowid < |clients.Keys|)
    && (forall u, v :: u in clients && v in clients && clients[u].rowid == clients[v].rowid ==> u == v)
  }

  /** INSERT INTO clients; the primary key refuses a uuid it already has. */
  function InsertClient(st: Store, uid: Bytes, name: Bytes): Option<Store> {
    if uid in st.clients then None
    else Some(st.(clients := st.clients[uid :=
      ClientRow(|st.clients.Keys|, name, PUBLIC_KEY_PLACEHOLDER, AES_KEY_PLACEHOLDER)]))
  }

  /** UPDATE clients SET public_key = ? WHERE uuid = ? */
  function SetPublicKey(st: Store, uid: Bytes, key: Bytes): Store {
    if uid !in st.clients then st
    else st.(clients := st.clients[uid := st.clients[uid].(publicKey := key)])
  }

  /** UPDATE clients SET aes_key = ? WHERE uuid = ? */
  function SetAesKey(st: Store, uid: Bytes, key: Bytes): Store {
    if uid !in st.clients then st
    else st.(clients := st.clients[uid := st.clients[uid].(aesKey := key)])
  }

  /** SELECT of one field of a client's row. */
  function ClientOf(st: Store, uid: Bytes): Option<ClientRow> {
    if uid in st.clients then Some(st.clients[uid]) else None
  }

  /** INSERT OR IGNORE INTO files: an existing row of the uuid stays as it is. */
  function InsertFile(st: Store, uid: Bytes, name: Bytes, path: Bytes): Store {
    if uid in st.files then st else st.(files := st.files[uid := FileRow(name, path, false)])
  }

  /** UPDATE files SET verified = 1 WHERE uuid = ? [AND file_name = ?]; no name, no condition. */
  function SetVerified(st: Store, uid: Bytes, name: Bytes): Store {
    if uid in st.files && (name == [] || st.files[uid].fileName == name) then
      st.(files := st.files[uid := st.files[uid].(verified := true)])
    else st
  }

  /** DELETE FROM files WHERE verified = 0 AND uuid = ? AND file_name = ? */
  function DeleteUnverified(st: Store, uid: Bytes, name: Bytes): Store {
    if uid in st.files && !st.files[uid].verified && st.files[uid].fileName == name then
      st.(files := st.files - {uid})
    else st
  }

  // ---- the backup directory ----------------------------------------------------------------

  function Dir(st: Store, stem: Bytes): map<Bytes, Bytes> {
    if stem in st.disk then st.disk[stem] else map[]
  }

  function WriteFile(st: Store, stem: Bytes, name: Bytes, data: Bytes): Store {
    st.(disk := st.disk[stem := Dir(st, stem)[name := data]])
  }

  function RemoveFile(st: Store, stem: Bytes, name: Bytes): Store {
    if name !in Dir(st, stem) then st
    else st.(disk := st.disk[stem := Dir(st, stem) - {name}])
  }

  function ReadFile(st: Store, stem: Bytes, name: Bytes): Option<Bytes> {
    if name in Dir(st, stem) then Some(Dir(st, stem)[name]) else None
  }

  // ---- the class ---------------------------------------------------------------------------

  /** What `update_entry` sets. */
  datatype Column = PublicKeyEntry(key: Bytes) | AesKeyEntry(key: Bytes) | VerifiedEntry

  function UpdateEntry(st: Store, e: Column, uid: Bytes, filename: Bytes): Store {
    match e
    case PublicKeyEntry(key) => SetPublicKey(st, uid, key)
    case AesKeyEntry(key) => SetAesKey(st, uid, key)
    case VerifiedEntry => SetVerified(st, uid, filename)
  }

  class DefensiveDB {
    var clients: map<Bytes, ClientRow>
    var files: map<Bytes, FileRow>
    var disk: map<Bytes, map<Bytes, Bytes>>

    function State(): Store
      reads this
    {
      Store(clients, files, disk)
    }

    constructor ()
      ensures State() == Store(map[], map[], map[])
    {
      clients, files, disk := map[], map[], map[];
    }

    method Update(e: Column, uid: Bytes, filename: Bytes)
      modifies this
      ensures State() == UpdateEntry(old(State()), e, uid, filename)
    {
      match e
      case PublicKeyEntry(key) =>
        if uid in clients {
          clients := clients[uid := clients[uid].(publicKey := key)];
        }
      case AesKeyEntry(key) =>
        if uid in clients {
          clients := clients[uid := clients[uid].(aesKey := key)];
        }
      case VerifiedEntry =>
        var file := filename != [];
        if uid in files && (!file || files[uid].fileName == filename) {
          files := files[uid := files[uid].(verified := true)];
        }
    }

    method GetClient(uid: Bytes) returns (row: Option<ClientRow>)
      ensures row == ClientOf(State(), uid)
    {
      row := if uid in clients then Some(clients[uid]) else None;
    }

    /** The rows may be met in any order; the first one inserted is kept. */
    method FindUsername(name: Bytes) returns (uid: Option<Bytes>)
      requires Numbered(clients)
      ensures uid == UuidOf(State(), name)
    {
      var rest := clients.Keys;
      uid := None;
      while rest != {}
        invariant rest <= clients.Keys
        invariant uid.None? ==> forall u :: u in clients && u !in rest ==> clients[u].userName != name
        invariant uid.Some? ==>
          && uid.value in clients && clients[uid.value].userName == name
          && forall u :: u in clients && u !in rest && clients[u].userName == name ==>
               clients[uid.value].rowid <= clients[u].rowid
        decreases |rest|
      {
        var u :| u in rest;
        if clients[u].userName == name && (uid.None? || clients[u].rowid < clients[uid.value].rowid) {
          uid := Some(u);
        }
        rest := rest - {u};
      }
    }

    method AddNewClient(uid: Bytes, name: Bytes) returns (ok: bool)
      modifies this
      ensures ok <==> InsertClient(old(State()), uid, name).Some?
      ensures State() == if ok then InsertClient(old(State()), uid, name).value else old(State())
    {
      ok := uid !in clients;
      if ok {
        clients := clients[uid := ClientRow(|clients.Keys|, name, PUBLIC_KEY_PLACEHOLDER, AES_KEY_PLACEHOLDER)];
      }
    }

    method AddNewFile(uid: Bytes, name: Bytes) returns (ok: bool)
      modifies this
      ensures ok <==> uid in old(clients)
      ensures State() ==
        if ok then InsertFile(old(State()), uid, name, Stem(old(clients)[uid].userName)) else old(State())
    {
      var row := GetClient(uid);
      ok := row.Some?;
      if ok && uid !in files {
        files := files[uid := FileRow(name, Stem(row.value.userName), false)];
      }
    }

    method DeleteUnverifiedFile(uid: Bytes, name: Bytes)
      modifies this
      ensures State() == DeleteUnverified(old(State()), uid, name)
    {
      if uid in files && !files[uid].verified && files[uid].fileName == name {
        files := files - {uid};
      }
    }

    method Write(stem: Bytes, name: Bytes, data: Bytes)
      modifies this`disk
      ensures State() == WriteFile(old(State()), stem, name, data)
    {
      if stem !in disk {
        disk := disk[stem := map[]];
      }
      disk := disk[stem := disk[stem][name := data]];
    }

    method Remove(stem: Bytes, name: Bytes) returns (ok: bool)
      modifies this`disk
      ensures ok <==> name in Dir(old(State()), stem)
      ensures State() == RemoveFile(old(State()), stem, name)
    {
      ok := stem in disk && name in disk[stem];
      if ok {
        disk := disk[stem := disk[stem] - {name}];
      }
    }

    method Read(stem: Bytes, name: Bytes) returns (data: Option<Bytes>)
      ensures data == ReadFile(State(), stem, name)
    {
      data := if stem in disk && name in disk[stem] then Some(disk[stem][name]) else None;
    }
  }
}
