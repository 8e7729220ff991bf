/** How the server answers each request: exactly when it does what it is asked for. */
module ServerAnswers {
  import opened Bytes
  import opened Cipher
  import opened Crc
  import opened Database
  import opened Protocol
  import opened Server

  /**
   A registration is accepted exactly for a name of 7-bit characters that no row has, if the uuid drawn is
   new; a name some row has is told that row's uuid, the earliest one's.  All else is an error.
   */
  lemma RegistrationAnswered(st: Store, name: Bytes, draw: Draw)
    ensures var (st', a) := Register(st, name, draw);
      var ascii := forall i :: 0 <= i < |name| ==> name[i] as int < 128;
      var free := forall u :: u in st.clients ==> st.clients[u].userName != name;
      && (a.code == REG_SUCCESSFUL <==> ascii && free && draw.uuid !in st.clients)
      && (a.code == REG_FAILED <==> ascii && !free)
      && (a.code == REG_FAILED ==>
            && a.payload in st.clients && st.clients[a.payload].userName == name
            && forall u :: u in st.clients && st.clients[u].userName == name ==>
                 st.clients[a.payload].rowid <= st.clients[u].rowid)
      && (a.code == GENERAL_ERROR <==> !ascii || (free && draw.uuid in st.clients))
      && (a.code == REG_SUCCESSFUL ==>
            && a.payload == draw.uuid
            && st'.clients.Keys == st.clients.Keys + {draw.uuid}
            && st'.clients[draw.uuid] ==
                 ClientRow(|st.clients.Keys|, name, PUBLIC_KEY_PLACEHOLDER, AES_KEY_PLACEHOLDER)
            && st'.files == st.files && st'.disk == st.disk
            && forall u :: u in st.clients ==> st'.clients[u] == st.clients[u])
      && (a.code != REG_SUCCESSFUL ==> st' == st)
  {
    hide UuidOf;
    assert forall i :: 0 <= i < |name| ==> (name[i] < 0x80 <==> name[i] as int < 128);
  }

  /** A public key is accepted exactly if it can be used, and then the stored key is the one that was drawn. */
  lemma PublicKeyAnswered(c: Crypto, st: Store, uid: Bytes, name: Bytes, key: Bytes, draw: Draw)
    requires |key| == PUBLIC_KEY_SIZE && name != []
    ensures var (st', a) := PublicKey(c, st, uid, name + key, draw);
      var rsa := c.importKey(key);
      && (a.code == IN_PUBLIC_OUT_AES <==>
            uid in st.clients && rsa.Some? && c.oaepEncrypt(rsa.value, draw.seed, draw.aesKey).Some?)
      && (a.code == IN_PUBLIC_OUT_AES || a == ERROR)
      && (a.code == IN_PUBLIC_OUT_AES ==>
            && a.payload == uid + c.oaepEncrypt(rsa.value, draw.seed, draw.aesKey).value
            && st'.clients[uid] == st.clients[uid].(publicKey := key, aesKey := draw.aesKey))
      && (uid in st.clients ==> uid in st'.clients && st'.clients[uid].publicKey == key)
  {
    assert (name + key)[|name + key| - PUBLIC_KEY_SIZE..] == key;
  }

  /** A payload of the key's size or less is refused, and changes nothing. */
  lemma ShortKeyRefused(c: Crypto, st: Store, uid: Bytes, payload: Bytes, draw: Draw)
    requires |payload| <= PUBLIC_KEY_SIZE
    ensures PublicKey(c, st, uid, payload, draw) == (st, ERROR)
  {
  }

  /**
   An upload is answered with a checksum exactly if its client is registered, its name is valid and not all
   pipes, and its content is what a client encrypts with the key the server holds, of some file.
   */
  lemma UploadAnsweredExactly(c: Crypto, st: Store, uid: Bytes, head: Bytes, field: Bytes, content: Bytes)
    requires c.Valid() && |head| == NAME_INDEX && |field| == NAME_SIZE
    ensures var a := EncryptedFile(c, st, uid, head + field + content).1;
      && (a.code == VALID_CRC_FILE <==>
            && c.validUtf8(field) && (exists i :: 0 <= i < NAME_SIZE && field[i] != PIPE)
            && uid in st.clients && |st.clients[uid].aesKey| in {16, 24, 32}
            && exists file :: content == Encrypt(c.aes, st.clients[uid].aesKey, file))
      && (a.code == VALID_CRC_FILE || a == ERROR)
  {
    hide Encrypt, Decrypt, RemovePipes, SaveFile, Memcrc, LE;
    var payload := head + field + content;
    assert payload[NAME_INDEX..CONTENT_INDEX] == field;
    assert payload[CONTENT_INDEX..] == content;
    AllPipes(field);
    assert content == [] ==> payload[CONTENT_INDEX..] == [];
    if uid in st.clients {
      DecryptsSome(c.aes, st.clients[uid].aesKey, content);
    }
  }

  lemma DecryptsSome(aes: BlockCipher, key: Bytes, content: Bytes)
    requires aes.Valid()
    ensures Decrypt(aes, key, content).Some? <==>
            |key| in {16, 24, 32} && exists file :: content == Encrypt(aes, key, file)
  {
    hide Encrypt, Decrypt;
    forall file ensures Decrypt(aes, key, content) == Some(file) <==>
      |key| in {16, 24, 32} && content == Encrypt(aes, key, file)
    {
      DecryptIffEncrypt(aes, key, content, file);
    }
    if Decrypt(aes, key, content).Some? {
      assert content == Encrypt(aes, key, Decrypt(aes, key, content).value);
    }
  }

  lemma {:induction false} AllPipes(s: Bytes)
    ensures RemovePipes(s) != [] <==> exists i :: 0 <= i < |s| && s[i] != PIPE
  {
    if s != [] {
      AllPipes(s[1..]);
      if RemovePipes(s[1..]) != [] {
        var i :| 0 <= i < |s[1..]| && s[1..][i] != PIPE;
        assert s[i + 1] != PIPE;
      } else if s[0] == PIPE {
        forall i | 0 <= i < |s| ensures s[i] == PIPE {
          assert i > 0 ==> s[i] == s[1..][i - 1];
        }
      }
    }
  }

  /** Before it has exchanged keys a client can neither sign in nor upload, and the attempt changes nothing. */
  lemma PlaceholdersRefuse(c: Crypto, st: Store, uid: Bytes, payload: Bytes, draw: Draw)
    requires c.Valid() && uid in st.clients
    requires st.clients[uid].publicKey == PUBLIC_KEY_PLACEHOLDER && st.clients[uid].aesKey == AES_KEY_PLACEHOLDER
    ensures SignIn(c, st, uid, draw) == (st, Reply(RECONNECT_FAILED, uid))
    ensures EncryptedFile(c, st, uid, payload) == (st, ERROR)
  {
    hide Decrypt;
    DecryptsSome(c.aes, AES_KEY_PLACEHOLDER, if |payload| <= CONTENT_INDEX then [] else payload[CONTENT_INDEX..]);
  }

  /**
   A 900 and a 902 are answered by the sender's own uuid, whatever they find, unless the name is not UTF-8;
   then nothing changes.  A 900 leaves the disk as it is, and neither touches the table of clients.
   */
  lemma EndAnswered(c: Crypto, st: Store, uid: Bytes, code: nat, field: Bytes, rest: Bytes)
    requires |field| == NAME_SIZE
    ensures var (st', a) := ValidOrAbort(c, st, uid, code, field + rest);
      && a == (if c.validUtf8(field) then Reply(MSG_RECEIVED, uid) else ERROR)
      && (!c.validUtf8(field) ==> st' == st)
      && st'.clients == st.clients && (code == VALID_CRC ==> st'.disk == st.disk)
  {
    hide RemovePipes, Stem;
    assert (field + rest)[0..NAME_SIZE] == field;
  }

  /** A packet of another version is refused, whatever it asks for. */
  lemma OtherVersionRefused(c: Crypto, st: Store, r: Request, draw: Draw)
    requires c.Valid() && r.version != 3
    ensures Handle(c, st, r, draw) == (st, Some(Response(3, 1607, [])))
  {
    hide Register, PublicKey, SignIn, EncryptedFile, ValidOrAbort;
  }
}
