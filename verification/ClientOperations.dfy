/** Client/Client.cpp: the retry loops and the three public operations, exchange by exchange. */
module ClientOperations {
  import opened Protocol
  import opened ClientModel
  import opened Exchange

  ghost function Send(x: Setting, w: World, code: nat): (r: Result)
    requires Ready(x, w) && Known(code)
    ensures Ready(x, r.w) && ExchangeOk(x, w, code, r)
  {
    ExchangeFacts(x, w, code);
    SendAndReceive(x, w, code)
  }

  /** `errorResend` always sends twice more, and looks at the last answer only. */
  ghost function ErrorResend(x: Setting, w: World, code: nat): (r: Result)
    requires Ready(x, w) && Known(code)
    ensures Ready(x, r.w)
  {
    var r1 := Send(x, w, code);
    if r1.status.Threw? then r1
    else
      var r2 := Send(x, r1.w, code);
      if r2.status.Threw? then r2
      else Result(r2.w, Returned(r2.w.client.response.code != GENERAL_ERROR))
  }

  /** Send, then the macro RESEND_IF_SERVER_ERROR; `Returned(false)` makes the caller return. */
  ghost function SendWithResend(x: Setting, w: World, code: nat): (r: Result)
    requires Ready(x, w) && Known(code)
    ensures Ready(x, r.w)
  {
    var r := Send(x, w, code);
    if r.status.Threw? || r.w.client.response.code != GENERAL_ERROR then r
    else ErrorResend(x, r.w, code)
  }

  /** Up to `n` rounds of 901 and 828, while the checksum is not valid. */
  ghost function Rounds(x: Setting, w: World, n: nat): (r: Result)
    requires Ready(x, w)
    ensures Ready(x, r.w)
    decreases n
  {
    if n == 0 || w.client.crcValid then Result(w, Returned(true))
    else
      var r1 := Send(x, w, N_VALID_CRC);
      if r1.status.Threw? then r1
      else
        var r2 := Send(x, r1.w, SEND_FILE);
        if r2.status.Threw? then r2 else Rounds(x, r2.w, n - 1)
  }

  /** `resendEncryptedMessage` */
  ghost function ResendEncryptedMessage(x: Setting, w: World): (r: Result)
    requires Ready(x, w)
    ensures Ready(x, r.w)
  {
    var r := Rounds(x, w, 2);
    if r.status.Threw? || r.w.client.crcValid then r
    else
      var r' := Send(x, r.w, EXIT_CRC);
      if r'.status.Threw? then r' else Result(r'.w, Returned(false))
  }

  /** Go on with `next` only if `r` neither threw nor made the caller return. */
  predicate Continues(r: Result) {
    r.status == Returned(true)
  }

  /** Steps of `uploadFile`: key exchange for a client that has not signed in. */
  ghost function KeyPhase(x: Setting, w: World): (r: Result)
    requires Ready(x, w)
    ensures Ready(x, r.w)
  {
    if w.client.registered then Result(w, Returned(true)) else SendWithResend(x, w, S_PUBLIC_KEY)
  }

  /** The upload itself, and the macro VALID_CRC. */
  ghost function FilePhase(x: Setting, w: World): (r: Result)
    requires Ready(x, w)
    ensures Ready(x, r.w)
  {
    var r := SendWithResend(x, w, SEND_FILE);
    if !Continues(r) || r.w.client.crcValid then r else ResendEncryptedMessage(x, r.w)
  }

  /** The body of the `try` in `uploadFile`. */
  ghost function UploadBody(x: Setting, w: World): (r: Result)
    requires Ready(x, w)
    ensures Ready(x, r.w)
  {
    var r1 := KeyPhase(x, w);
    if !Continues(r1) then r1
    else
      var r2 := FilePhase(x, r1.w);
      if !Continues(r2) then r2 else SendWithResend(x, r2.w, VALID_CRC)
  }

  /** The same world with some of the client's own variables changed. */
  ghost function WithClient(x: Setting, w: World, cs: ClientState): (w': World)
    requires Ready(x, w) && |cs.clientID| == UID_SIZE
    ensures Ready(x, w')
  {
    ReadyWithClient(x, w, cs);
    w.(client := cs)
  }

  lemma ReadyId(x: Setting, w: World)
    requires Ready(x, w)
    ensures |w.client.clientID| == UID_SIZE
  {
    hide Sized, Setting.Sane, Setting.Valid;
  }

  /** `uploadFile`: an exception ends the program. */
  ghost function UploadFile(x: Setting, w: World): (w': World)
    requires Ready(x, w)
    ensures Ready(x, w')
  {
    var r := UploadBody(x, w);
    ReadyId(x, r.w);
    if r.status.Threw? then WithClient(x, r.w, r.w.client.(exited := true)) else r.w
  }

  /** `registerNewClient`; an exception makes it return false. */
  ghost function RegisterNewClient(x: Setting, w: World): (w': World)
    requires Ready(x, w)
    ensures Ready(x, w')
  {
    var r := Send(x, w, REGISTER);
    if r.status.Threw? || r.w.client.response.code != REG_SUCCESSFUL then r.w
    else WithClient(x, r.w, r.w.client.(clientID := r.w.client.response.payload[..UID_SIZE]))
  }

  /** `signIn`: a refused client registers anew. */
  ghost function SignInClient(x: Setting, w: World): (w': World)
    requires Ready(x, w)
    ensures Ready(x, w')
  {
    var r := Send(x, w, RECONNECT);
    if r.status.Threw? then r.w
    else if r.w.client.response.code == RECONNECT_FAILED then RegisterNewClient(x, r.w)
    else if r.w.client.response.code == OK_RECONNECT then
      ReadyId(x, r.w);
      WithClient(x, r.w, r.w.client.(registered := true))
    else r.w
  }

  datatype Operation = DoRegister | DoSignIn | DoUpload

  ghost function Perform(x: Setting, w: World, op: Operation): (w': World)
    requires Ready(x, w)
    ensures Ready(x, w')
  {
    if w.client.exited then w
    else match op
      case DoRegister => RegisterNewClient(x, w)
      case DoSignIn => SignInClient(x, w)
      case DoUpload => UploadFile(x, w)
  }

  /** `main` */
  const MAIN: seq<Operation> := [DoRegister, DoUpload, DoSignIn, DoUpload]

  /** A program of public operations in any order; `main` is one. */
  ghost function RunClient(x: Setting, w: World, ops: seq<Operation>): (w': World)
    requires Ready(x, w)
    ensures Ready(x, w')
    decreases ops
  {
    if ops == [] then w else RunClient(x, Perform(x, w, ops[0]), ops[1..])
  }
}
