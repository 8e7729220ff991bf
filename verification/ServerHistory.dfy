/**
 What the server's tables go through: how one client's row in `files` may change, and an
 invariant every run of requests keeps.
 */
module ServerHistory {
  import opened Bytes
  import opened Database
  import opened Protocol
  import opened Server

  datatype Event = Event(request: Request, draw: Draw)

  /** Whole requests, one after the other: the store they leave, and their answers. */
  ghost function HandleAll(c: Crypto, st: Store, run: seq<Event>): (Store, seq<Option<Response>>)
    requires c.Valid()
    decreases run
  {
    if run == [] then (st, [])
    else
      var (st1, answer) := Handle(c, st, run[0].request, run[0].draw);
      var (st2, rest) := HandleAll(c, st1, run[1..]);
      (st2, [answer] + rest)
  }

  lemma {:induction false} HandleAllAppend(c: Crypto, st: Store, run: seq<Event>, e: Event)
    requires c.Valid()
    ensures var (st1, answers) := HandleAll(c, st, run);
      var (st2, answer) := Handle(c, st1, e.request, e.draw);
      HandleAll(c, st, run + [e]) == (st2, answers + [answer])
    decreases run
  {
    hide Handle;
    if run == [] {
      assert run + [e] == [e];
      var (st1, last) := Handle(c, st, e.request, e.draw);
      assert [e][1..] == [];
      assert HandleAll(c, st1, []) == (st1, []);
      assert [last] + [] == [] + [last];
    } else {
      assert (run + [e])[1..] == run[1..] + [e];
      var (st1, first) := Handle(c, st, run[0].request, run[0].draw);
      HandleAllAppend(c, st1, run[1..], e);
      var (st2, rest) := HandleAll(c, st1, run[1..]);
      var last := Handle(c, st2, e.request, e.draw).1;
      assert [first] + (rest + [last]) == [first] + rest + [last];
    }
  }

  /** The store alone. */
  ghost function Run(c: Crypto, st: Store, run: seq<Event>): Store
    requires c.Valid()
  {
    HandleAll(c, st, run).0
  }

  // ---- the row of one client -----------------------------------------------------------------

  function RowOf(st: Store, uid: Bytes): Option<FileRow> {
    if uid in st.files then Some(st.files[uid]) else None
  }

  /** What a request means for its sender's row. */
  datatype FileAction = Save(name: Bytes) | Verify(name: Bytes) | Drop(name: Bytes) | Nothing

  ghost function ActionOn(c: Crypto, st: Store, uid: Bytes, r: Request): FileAction
    requires c.Valid()
  {
    if r.version != VERSION || r.clientID != uid then Nothing
    else if r.code == SEND_FILE then
      if EncryptedFile(c, st, uid, r.payload).1.code == VALID_CRC_FILE
      then Save(RemovePipes(Slice(r.payload, NAME_INDEX, CONTENT_INDEX)))
      else Nothing
    else if r.code in {VALID_CRC, EXIT_CRC} && c.validUtf8(Slice(r.payload, 0, NAME_SIZE)) then
      var name := RemovePipes(Slice(r.payload, 0, NAME_SIZE));
      if r.code == VALID_CRC then Verify(name) else Drop(name)
    else Nothing
  }

  /** The life of a row: absent, unverified under one name, verified under that name for ever. */
  function RowAfter(row: Option<FileRow>, a: FileAction, path: Bytes): Option<FileRow> {
    match (row, a)
    case (None, Save(name)) => Some(FileRow(name, path, false))
    case (Some(FileRow(name, p, v)), Verify(n)) => Some(FileRow(name, p, v || n == [] || n == name))
    case (Some(FileRow(name, p, v)), Drop(n)) => if !v && n == name then None else row
    case _ => row
  }

  function PathOf(st: Store, uid: Bytes): Bytes {
    if uid in st.clients then Stem(st.clients[uid].userName) else []
  }

  lemma KeysKeepFiles(c: Crypto, st: Store, r: Request, draw: Draw)
    ensures Register(st, r.payload, draw).0.files == st.files
    ensures PublicKey(c, st, r.clientID, r.payload, draw).0.files == st.files
    ensures SignIn(c, st, r.clientID, draw).0.files == st.files
  {
    hide UuidOf, IsAscii;
  }

  lemma SaveRow(c: Crypto, st: Store, v: Bytes, payload: Bytes, uid: Bytes)
    requires c.Valid()
    ensures var (st', resp) := EncryptedFile(c, st, v, payload);
      if v == uid && resp.code == VALID_CRC_FILE then
        RowOf(st', uid) == RowAfter(RowOf(st, uid),
          Save(RemovePipes(Slice(payload, NAME_INDEX, CONTENT_INDEX))), PathOf(st, uid))
      else RowOf(st', uid) == RowOf(st, uid)
  {
    hide RemovePipes, Content, Stem, Slice;
  }

  lemma EndRow(c: Crypto, st: Store, v: Bytes, code: nat, payload: Bytes, uid: Bytes)
    requires code in {VALID_CRC, EXIT_CRC}
    ensures var st' := ValidOrAbort(c, st, v, code, payload).0;
      if v == uid && c.validUtf8(Slice(payload, 0, NAME_SIZE)) then
        var name := RemovePipes(Slice(payload, 0, NAME_SIZE));
        RowOf(st', uid) ==
          RowAfter(RowOf(st, uid), if code == VALID_CRC then Verify(name) else Drop(name), PathOf(st, uid))
      else RowOf(st', uid) == RowOf(st, uid)
  {
    hide RemovePipes, Stem, Slice;
  }

  /** No request touches a row but its own sender's, and that one only as the automaton says. */
  lemma RowStep(c: Crypto, st: Store, e: Event, uid: Bytes)
    requires c.Valid()
    ensures RowOf(Handle(c, st, e.request, e.draw).0, uid) ==
            RowAfter(RowOf(st, uid), ActionOn(c, st, uid, e.request), PathOf(st, uid))
  {
    hide Register, PublicKey, SignIn, EncryptedFile, ValidOrAbort, RemovePipes, Slice, PathOf;
    var r := e.request;
    KeysKeepFiles(c, st, r, e.draw);
    SaveRow(c, st, r.clientID, r.payload, uid);
    if r.code in {VALID_CRC, EXIT_CRC} {
      EndRow(c, st, r.clientID, r.code, r.payload, uid);
    }
  }

  // ---- whole runs ----------------------------------------------------------------------------

  /** A verified row is never removed, renamed or unverified, whatever requests follow. */
  lemma {:induction false} VerifiedForEver(c: Crypto, st: Store, run: seq<Event>, uid: Bytes)
    requires c.Valid()
    requires RowOf(st, uid).Some? && RowOf(st, uid).value.verified
    ensures RowOf(Run(c, st, run), uid) == RowOf(st, uid)
    decreases run
  {
    hide Handle, ActionOn, PathOf;
    if run != [] {
      RowStep(c, st, run[0], uid);
      VerifiedForEver(c, Handle(c, st, run[0].request, run[0].draw).0, run[1..], uid);
    }
  }

  /** The client has a row before and after every request of the run. */
  ghost predicate PresentThroughout(c: Crypto, st: Store, run: seq<Event>, uid: Bytes)
    requires c.Valid()
    decreases run
  {
    RowOf(st, uid).Some? &&
    (run == [] || PresentThroughout(c, Handle(c, st, run[0].request, run[0].draw).0, run[1..], uid))
  }

  /** While a row exists its names stay, and `verified` only goes from 0 to 1. */
  lemma {:induction false} RowKeepsItsName(c: Crypto, st: Store, run: seq<Event>, uid: Bytes)
    requires c.Valid() && PresentThroughout(c, st, run, uid)
    ensures var (a, b) := (RowOf(st, uid), RowOf(Run(c, st, run), uid));
      && b.Some? && b.value.fileName == a.value.fileName && b.value.pathName == a.value.pathName
      && (a.value.verified ==> b.value.verified)
    decreases run
  {
    hide Handle, ActionOn, PathOf;
    if run != [] {
      RowStep(c, st, run[0], uid);
      RowKeepsItsName(c, Handle(c, st, run[0].request, run[0].draw).0, run[1..], uid);
    }
  }

  /** Request `e` is a 900 of this client that names its row, or no file at all. */
  ghost predicate Confirms(c: Crypto, st: Store, e: Event, uid: Bytes)
    requires c.Valid()
  {
    && RowOf(st, uid).Some? && ActionOn(c, st, uid, e.request).Verify?
    && ActionOn(c, st, uid, e.request).name in {[], RowOf(st, uid).value.fileName}
  }

  /** A row that a run leaves verified was verified before, or a 900 of its client confirmed it. */
  lemma {:induction false} VerifiedByConfirmation(c: Crypto, st: Store, run: seq<Event>, uid: Bytes)
    returns (i: nat)
    requires c.Valid()
    requires RowOf(Run(c, st, run), uid).Some? && RowOf(Run(c, st, run), uid).value.verified
    requires RowOf(st, uid).None? || !RowOf(st, uid).value.verified
    ensures i < |run| && Confirms(c, Run(c, st, run[..i]), run[i], uid)
    decreases run
  {
    hide Handle, ActionOn, PathOf;
    if Confirms(c, st, run[0], uid) {
      i := 0;
    } else {
      RowStep(c, st, run[0], uid);
      var j := VerifiedByConfirmation(c, Handle(c, st, run[0].request, run[0].draw).0, run[1..], uid);
      i := j + 1;
      assert run[..i][1..] == run[1..][..j] && run[..i][0] == run[0];
    }
  }

  // ---- the invariant ---------------------------------------------------------------------------

  predicate Terminated(name: Bytes) {
    name != [] && name[|name| - 1] == 0
  }

  ghost predicate UniqueNames(st: Store) {
    forall u, v :: u in st.clients && v in st.clients && st.clients[u].userName == st.clients[v].userName
      ==> u == v
  }

  ghost predicate TerminatedNames(st: Store) {
    forall u :: u in st.clients ==> Terminated(st.clients[u].userName)
  }

  /** The row is of a registered client, with its path, and on disk unless verified. */
  ghost predicate RowOk(st: Store, uid: Bytes) {
    uid in st.files ==>
      && uid in st.clients
      && st.files[uid].pathName == PathOf(st, uid)
      && (!st.files[uid].verified ==> st.files[uid].fileName in Dir(st, PathOf(st, uid)))
  }

  ghost predicate Inv(st: Store) {
    UniqueNames(st) && TerminatedNames(st) && forall u :: RowOk(st, u)
  }

  /** A registration, if this is one, sends a name that ends in NUL. */
  predicate TerminatesName(r: Request) {
    r.version == VERSION && r.code == REGISTER ==> Terminated(r.payload)
  }

  lemma StemDetermines(a: Bytes, b: Bytes)
    requires Terminated(a) && Terminated(b)
    ensures Stem(a) == Stem(b) ==> a == b
  {
    assert a == Stem(a) + [0] && b == Stem(b) + [0];
  }

  /** Different names that end in NUL give different directories. */
  lemma StemsDiffer(st: Store, u: Bytes, v: Bytes)
    requires UniqueNames(st) && TerminatedNames(st)
    requires u in st.clients && v in st.clients && u != v
    ensures PathOf(st, u) != PathOf(st, v)
  {
    StemDetermines(st.clients[u].userName, st.clients[v].userName);
  }

  lemma InsertKeepsInv(st: Store, uid: Bytes, name: Bytes)
    requires Inv(st) && Terminated(name) && uid !in st.clients
    requires forall u :: u in st.clients ==> st.clients[u].userName != name
    ensures Inv(InsertClient(st, uid, name).value)
  {
    hide Stem, Terminated;
    var st' := InsertClient(st, uid, name).value;
    assert RowOk(st, uid);
    forall u ensures RowOk(st', u) {
      assert RowOk(st, u);
    }
  }

  lemma RegisterKeepsInv(st: Store, payload: Bytes, draw: Draw)
    requires Inv(st) && Terminated(payload)
    ensures Inv(Register(st, payload, draw).0)
  {
    hide IsAscii, IsFirst, Inv, Terminated;
    if UuidOf(st, payload).None? && draw.uuid !in st.clients {
      InsertKeepsInv(st, draw.uuid, payload);
    }
  }

  /** Only key columns of `st` differ in `st'`. */
  ghost predicate SameButKeys(st: Store, st': Store) {
    && st'.files == st.files && st'.disk == st.disk && st'.clients.Keys == st.clients.Keys
    && forall u :: u in st.clients ==>
         st'.clients[u].userName == st.clients[u].userName && st'.clients[u].rowid == st.clients[u].rowid
  }

  lemma GenerateChangesKeys(c: Crypto, st: Store, uid: Bytes, draw: Draw)
    ensures SameButKeys(st, GenerateAesKey(c, st, uid, draw).0)
  {
  }

  lemma KeysChangeKeys(c: Crypto, st: Store, uid: Bytes, payload: Bytes, draw: Draw)
    ensures SameButKeys(st, PublicKey(c, st, uid, payload, draw).0)
    ensures SameButKeys(st, SignIn(c, st, uid, draw).0)
  {
    hide GenerateAesKey;
    GenerateChangesKeys(c, st, uid, draw);
    if |payload| > PUBLIC_KEY_SIZE {
      GenerateChangesKeys(c, SetPublicKey(st, uid, payload[|payload| - PUBLIC_KEY_SIZE..]), uid, draw);
    }
  }

  lemma FilesKeepClients(c: Crypto, st: Store, uid: Bytes, code: nat, payload: Bytes)
    requires c.Valid()
    ensures EncryptedFile(c, st, uid, payload).0.clients == st.clients
    ensures ValidOrAbort(c, st, uid, code, payload).0.clients == st.clients
  {
    hide Content, NameIn, CrcReply;
  }

  lemma SameButKeysKeepsInv(st: Store, st': Store)
    requires Inv(st) && SameButKeys(st, st')
    ensures Inv(st')
  {
    forall u ensures RowOk(st', u) {
      assert RowOk(st, u);
    }
  }

  lemma SaveKeepsInv(c: Crypto, st: Store, uid: Bytes, payload: Bytes)
    requires c.Valid() && Inv(st)
    ensures Inv(EncryptedFile(c, st, uid, payload).0)
  {
    hide Content, NameIn, CrcReply, Stem, Terminated;
    var st' := EncryptedFile(c, st, uid, payload).0;
    if st' != st {
      forall u ensures RowOk(st', u) {
        assert RowOk(st, u);
      }
    }
  }

  lemma EndKeepsInv(c: Crypto, st: Store, uid: Bytes, code: nat, payload: Bytes)
    requires c.Valid() && Inv(st)
    ensures Inv(ValidOrAbort(c, st, uid, code, payload).0)
  {
    hide NameIn, Stem, Terminated;
    var st' := ValidOrAbort(c, st, uid, code, payload).0;
    forall u ensures RowOk(st', u) {
      assert RowOk(st, u);
      if u in st.clients && uid in st.clients && u != uid {
        StemsDiffer(st, u, uid);
      }
    }
  }

  lemma InvStep(c: Crypto, st: Store, e: Event)
    requires c.Valid() && Inv(st) && TerminatesName(e.request)
    ensures Inv(Handle(c, st, e.request, e.draw).0)
  {
    hide Inv, Register, PublicKey, SignIn, EncryptedFile, ValidOrAbort, Terminated, SameButKeys;
    var r := e.request;
    if r.version == VERSION && r.code == REGISTER {
      RegisterKeepsInv(st, r.payload, e.draw);
    }
    KeysChangeKeys(c, st, r.clientID, r.payload, e.draw);
    SameButKeysKeepsInv(st, PublicKey(c, st, r.clientID, r.payload, e.draw).0);
    SameButKeysKeepsInv(st, SignIn(c, st, r.clientID, e.draw).0);
    SaveKeepsInv(c, st, r.clientID, r.payload);
    EndKeepsInv(c, st, r.clientID, r.code, r.payload);
  }

  /** At every request boundary of every run in which registered names end in NUL. */
  lemma {:induction false} InvAlways(c: Crypto, st: Store, run: seq<Event>)
    requires c.Valid() && Inv(st)
    requires forall e :: e in run ==> TerminatesName(e.request)
    ensures Inv(Run(c, st, run))
    decreases run
  {
    hide Inv, Handle;
    if run != [] {
      assert run[0] in run;
      InvStep(c, st, run[0]);
      InvAlways(c, Handle(c, st, run[0].request, run[0].draw).0, run[1..]);
    }
  }

  lemma EmptyInv()
    ensures Inv(Store(map[], map[], map[]))
  {
  }
}
