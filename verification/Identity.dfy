/**
 The identity file me.info: written after registration by Client/responseHandler.cpp, read back for
 sign-in by Client/requestHandler.cpp.
 */
module Identity {
  import opened Bytes
  import opened Database
  import opened Protocol
  import opened Server
  import opened ClientRequests
  import opened ClientModel

  const NEWLINE: byte := 0x0a

  // "0123456789abcdef"
  const DIGITS: Bytes := [
    0x30, 0x31, 0x32, 0x33, 0x34, 0x35, 0x36, 0x37, 0x38, 0x39, 0x61, 0x62, 0x63, 0x64, 0x65, 0x66]

  function Digit(n: nat): byte
    requires n < 16
  {
    DIGITS[n]
  }

  /** The value of a hexadecimal digit of either case. */
  function DigitValue(ch: byte): (r: Option<nat>)
    ensures r.Some? ==> r.value < 16
  {
    if 0x30 <= ch <= 0x39 then Some((ch - 0x30) as nat)
    else if 0x61 <= ch <= 0x66 then Some((ch - 0x61) as nat + 10)
    else if 0x41 <= ch <= 0x46 then Some((ch - 0x41) as nat + 10)
    else None
  }

  /** 0 to 9, a to f */
  predicate IsLowerDigit(ch: byte) {
    0x30 <= ch <= 0x39 || 0x61 <= ch <= 0x66
  }

  lemma DigitRoundTrip(n: nat)
    requires n < 16
    ensures DigitValue(Digit(n)) == Some(n) && IsLowerDigit(Digit(n))
  {
  }

  // ---- hexadecimal ---------------------------------------------------------------------------

  /** `std::setw(2) << std::setfill('0') << std::hex` */
  function Pair(b: byte): (hex: Bytes)
    ensures |hex| == 2
  {
    [Digit(b as nat / 16), Digit(b as nat % 16)]
  }

  /** Blanks, as `std::isspace` has them. */
  predicate IsSpace(ch: byte) {
    ch == 0x20 || 0x09 <= ch <= 0x0d
  }

  /**
   `std::stoi` in base 16 on two characters, cast to a byte: it stops at what is not a digit, skips a
   blank, takes a sign, and throws when there is no digit at all.
   */
  function PairValue(hex: Bytes): Option<byte>
    requires |hex| == 2
  {
    match (DigitValue(hex[0]), DigitValue(hex[1]))
    case (Some(high), Some(low)) => Some(ByteOf(16 * high + low))
    case (Some(only), None) => Some(ByteOf(only))
    case (None, Some(low)) =>
      if IsSpace(hex[0]) || hex[0] == 0x2b then Some(ByteOf(low))
      else if hex[0] == 0x2d then Some(ByteOf((256 - low) % 256))
      else None
    case (None, None) => None
  }

  lemma PairRoundTrip(b: byte)
    ensures PairValue(Pair(b)) == Some(b)
    ensures IsLowerDigit(Pair(b)[0]) && IsLowerDigit(Pair(b)[1])
  {
    hide Digit, DigitValue, ByteOf, IsLowerDigit;
    var n := b as nat;
    DigitRoundTrip(n / 16);
    DigitRoundTrip(n % 16);
    ByteOfNat(b);
  }

  function ToHex(payload: Bytes): (hex: Bytes)
    ensures |hex| == 2 * |payload|
  {
    if payload == [] then [] else Pair(payload[0]) + ToHex(payload[1..])
  }

  function FromHex(hex: Bytes): (r: Option<Bytes>)
    requires |hex| % 2 == 0
    ensures r.Some? ==> 2 * |r.value| == |hex|
  {
    if hex == [] then Some([])
    else
      match (PairValue(hex[..2]), FromHex(hex[2..]))
      case (Some(b), Some(rest)) => Some([b] + rest)
      case _ => None
  }

  lemma {:induction false} HexRoundTrip(payload: Bytes)
    ensures FromHex(ToHex(payload)) == Some(payload)
    ensures forall ch :: ch in ToHex(payload) ==> IsLowerDigit(ch)
  {
    hide Pair, PairValue, IsLowerDigit;
    if payload != [] {
      HexRoundTrip(payload[1..]);
      PairRoundTrip(payload[0]);
      assert ToHex(payload)[..2] == Pair(payload[0]);
      assert ToHex(payload)[2..] == ToHex(payload[1..]);
      assert payload == [payload[0]] + payload[1..];
    }
  }

  lemma {:induction false} ToHexAppend(a: Bytes, b: byte)
    ensures ToHex(a + [b]) == ToHex(a) + Pair(b)
  {
    hide Pair;
    if a == [] {
      assert a + [b] == [b];
      assert ToHex([b]) == Pair(b) + ToHex([]);
    } else {
      assert (a + [b])[1..] == a[1..] + [b];
      ToHexAppend(a[1..], b);
    }
  }

  /** `toHex`, byte after byte into a stream. */
  method WriteHex(payload: Bytes) returns (oss: Bytes)
    ensures oss == ToHex(payload)
  {
    hide Pair;
    oss := [];
    for i := 0 to |payload|
      invariant oss == ToHex(payload[..i])
    {
      assert payload[..i + 1] == payload[..i] + [payload[i]];
      ToHexAppend(payload[..i], payload[i]);
      oss := oss + Pair(payload[i]);
    }
    assert payload[..|payload|] == payload;
  }

  function Prepend(data: Bytes, rest: Option<Bytes>): Option<Bytes> {
    if rest.None? then None else Some(data + rest.value)
  }

  lemma PrependNothing(rest: Option<Bytes>)
    ensures Prepend([], rest) == rest
  {
    assert rest.Some? ==> [] + rest.value == rest.value;
  }

  lemma PrependMore(data: Bytes, b: byte, rest: Option<Bytes>)
    ensures Prepend(data, Prepend([b], rest)) == Prepend(data + [b], rest)
  {
    assert rest.Some? ==> data + ([b] + rest.value) == data + [b] + rest.value;
  }

  /** `uuidToBinary`: the bytes, and a NUL after them. */
  method UuidToBinary(hexUUID: Bytes) returns (binaryData: Option<Bytes>)
    requires |hexUUID| % 2 == 0
    ensures binaryData ==
      match FromHex(hexUUID)
      case None => None
      case Some(uuid) => Some(uuid + [0])
  {
    hide PairValue;
    var data: Bytes := [];
    var i := 0;
    assert hexUUID[0..] == hexUUID;
    PrependNothing(FromHex(hexUUID));
    while i < |hexUUID|
      invariant 0 <= i <= |hexUUID| && i % 2 == 0
      invariant FromHex(hexUUID) == Prepend(data, FromHex(hexUUID[i..]))
    {
      var b := PairValue(hexUUID[i..i + 2]);
      assert hexUUID[i..][..2] == hexUUID[i..i + 2] && hexUUID[i..][2..] == hexUUID[i + 2..];
      if b.None? {
        return None;
      }
      PrependMore(data, b.value, FromHex(hexUUID[i + 2..]));
      data := data + [b.value];
      i := i + 2;
    }
    assert hexUUID[i..] == [] && data + [] == data;
    binaryData := Some(data + [0]);
  }

  // ---- lines -------------------------------------------------------------------------------------

  /** `std::getline`: up to a newline, and what follows it. */
  function GetLine(text: Bytes): (r: (Bytes, Bytes))
    ensures |r.0| <= |text| && |r.1| <= |text|
  {
    if text == [] then ([], [])
    else if text[0] == NEWLINE then ([], text[1..])
    else
      var (line, rest) := GetLine(text[1..]);
      ([text[0]] + line, rest)
  }

  lemma {:induction false} LineBack(line: Bytes, rest: Bytes)
    ensures NEWLINE !in line ==> GetLine(line + [NEWLINE] + rest) == (line, rest)
    ensures NEWLINE in line ==> |GetLine(line + [NEWLINE] + rest).0| < |line|
    ensures NEWLINE !in line ==> GetLine(line) == (line, [])
  {
    var text := line + [NEWLINE] + rest;
    if line == [] {
      assert text == [NEWLINE] + rest;
    } else {
      assert text[1..] == line[1..] + [NEWLINE] + rest;
      assert line == [line[0]] + line[1..];
      LineBack(line[1..], rest);
    }
  }

  // ---- the file ----------------------------------------------------------------------------------

  /** `createNewClientFile`: name, uuid in hexadecimal, and the private key. */
  function MeInfo(name: Bytes, uuid: Bytes, key: Bytes): Bytes {
    name + [NEWLINE] + (ToHex(uuid) + [NEWLINE] + key)
  }

  /** `getUUIDandUserName`: the name with a NUL, and the 32 digits. */
  function GetUUIDandUserName(text: Bytes): (r: Option<(Bytes, Bytes)>)
    ensures r.Some? ==> |r.value.1| == 2 * UID_SIZE
  {
    var (username, rest) := GetLine(text);
    var (uid, _) := GetLine(rest);
    if |username| > NAME_SIZE || username == [] || |uid| != 2 * UID_SIZE then None
    else Some((Terminate(username), uid))
  }

  /** `clientSignIn`: the name, and the uuid with its NUL. */
  function ReadIdentity(text: Bytes): (r: Option<(Bytes, Bytes)>)
    ensures r.Some? ==> |r.value.1| == UID_SIZE + 1
  {
    match GetUUIDandUserName(text)
    case None => None
    case Some((username, hex)) =>
      match FromHex(hex)
      case None => None
      case Some(uuid) => Some((username, uuid + [0]))
  }

  /** The identity comes back exactly when the name is one non-empty line of at most 255 bytes. */
  lemma IdentityRoundTrip(name: Bytes, uuid: Bytes, key: Bytes)
    requires |uuid| == UID_SIZE
    ensures ReadIdentity(MeInfo(name, uuid, key)) == Some((Terminate(name), uuid + [0])) <==>
            NEWLINE !in name && 0 < |name| <= NAME_SIZE
    ensures NEWLINE !in name ==> GetLine(GetLine(MeInfo(name, uuid, key)).1) == (ToHex(uuid), key)
  {
    hide ToHex, FromHex, GetLine;
    assert !IsLowerDigit(NEWLINE);
    LineBack(name, ToHex(uuid) + [NEWLINE] + key);
    HexRoundTrip(uuid);
    LineBack(ToHex(uuid), key);
    var username := GetLine(MeInfo(name, uuid, key)).0;
    if NEWLINE in name {
      assert |Terminate(username)| < |Terminate(name)|;
    }
  }

  /** What the file gives back for any name of one line. */
  lemma IdentityOfLine(name: Bytes, uuid: Bytes, key: Bytes)
    requires |uuid| == UID_SIZE && NEWLINE !in name
    ensures ReadIdentity(MeInfo(name, uuid, key)) ==
            if 0 < |name| <= NAME_SIZE then Some((Terminate(name), uuid + [0])) else None
  {
    hide ToHex, FromHex, GetLine;
    assert !IsLowerDigit(NEWLINE);
    LineBack(name, ToHex(uuid) + [NEWLINE] + key);
    HexRoundTrip(uuid);
    LineBack(ToHex(uuid), key);
  }

  /**
   The pair the client model keeps for me.info stands for this file: request 827 is built from what the
   file gives back, or fails with it.
   */
  lemma SignInFromFile(x: Setting, cs: ClientState, name: Bytes, uuid: Bytes, key: Bytes)
    requires x.Valid() && |uuid| == UID_SIZE && NEWLINE !in name && cs.meInfo == Some((name, uuid))
    ensures Build(x, cs, RECONNECT) ==
            match ReadIdentity(MeInfo(name, uuid, key))
            case None => None
            case Some((username, id)) => Some((id[..UID_SIZE], username))
  {
    hide MeInfo, ReadIdentity;
    IdentityOfLine(name, uuid, key);
    assert (uuid + [0])[..UID_SIZE] == uuid;
  }

  /** What a new client reads back at sign-in is what the server stored when it registered. */
  lemma RegisteredIdentity(st: Store, name: Bytes, draw: Draw, key: Bytes)
    requires |draw.uuid| == UID_SIZE && NEWLINE !in name && 0 < |name| <= NAME_SIZE
    requires Register(st, Terminate(name), draw).1.code == REG_SUCCESSFUL
    ensures var (st', answer) := Register(st, Terminate(name), draw);
      var uuid := answer.payload;
      && |uuid| == UID_SIZE && uuid in st'.clients
      && ReadIdentity(MeInfo(name, uuid, key)) == Some((st'.clients[uuid].userName, uuid + [0]))
  {
    hide MeInfo, ReadIdentity, IsAscii, UuidOf;
    IdentityRoundTrip(name, draw.uuid, key);
  }
}
