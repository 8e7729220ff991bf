# Encrypted backup: a verified model of client and server

A client written in C++ uploads one encrypted file to a server written in Python, and confirms it
by a checksum. This project models both programs in Dafny and proves what they keep together.

The server (`Server/`) has two tables, a backup directory, and one thread for every client. The
client (`Client/`) registers or signs in, exchanges keys, uploads its file in request 828, compares
the checksum the server answers with that of its own file, and confirms the file (900), sends it
again (901 and 828), or gives up (902).

`dafny verify dfyconfig.toml` checks everything.

## How the model is built

* `Bytes`, `Protocol`, `Transport`: bytes, little-endian numbers, packets, the socket with an
  arbitrary `recv`, the chunked reads and writes.
* `CrcTable`, `Crc`, `Gf2`, `CrcTheory`, `CrcDetection`: the table-driven checksum, polynomials over
  GF(2), and what the one computes of the other.
* `Cipher`: CBC (section 6.2 of NIST SP 800-38A) over any block cipher whose decryption undoes its
  encryption, with the padding of section 6.3 of RFC 5652.
* `Database`, `Server`, `RequestHandler`: tables, disk and handlers, first as functions from store
  to store, then as classes whose methods change them in place and are proved equal to the functions.
* `ServerHistory`, `ServerSteps`, `Isolation`, `Races`, `Lockstep`: whole runs of the server, at the
  granularity of requests, of single queries and file operations, and of bytes on the stream.
* `ClientRequests`, `ClientModel`, `ClientOperations`, `Client`, `Identity`: the client's builders,
  its reaction to responses, its retry loops and public operations, again as functions and as a class.
* `ServerAnswers`: exactly when each request is answered how.
* `Exchange`, `ClientLog`, `Delivery`, `Soundness`, `ClientRuns`, `EndToEnd`, `FirstUpload`,
  `MainProgram`, `GivingUp`: client and server together. Before every packet of the client the server may handle
  any requests of other clients, and the link may replace the encrypted content of an upload by any
  other of its length (`ClientModel.LinkIsFree`).
* `ClientConduct`, `ClientHistory`: the client's operations as one automaton over its log, and what every
  run says of its uuid, its files and its flags.
* `SharedServer`: the same client as one thread among others whose queries and file operations come in
  between its own.

The main results: the checksum is the complement of the POSIX `cksum` remainder and detects every
burst of 32 bits; CBC over 16-byte chunks is CBC over the whole file and the server's decryption is
its exact inverse; a session's answers are those of its answered requests in order; clients do not
affect one another however their queries interleave; the client's operations
are runs of an automaton that says, for every answer, which packet comes next and under which uuid; a
client confirms a file only after its checksum was validated, and then a file of that checksum is on the
server's disk; when it gives up instead, the file is gone from the server; after an accepted
key exchange both sides hold the same key; and the client's whole `main`, from registration to a second
upload after signing in, takes seven packets and leaves exactly its file, verified.

## Assumptions

* AES, RSA, OAEP and UTF-8 validity are arbitrary functions. A block cipher's two directions are
  inverse on 16-byte blocks. OAEP decryption gives the message that was encrypted or fails. A key
  encrypted by OAEP is shorter than 65536 bytes.
* New uuids have 16 bytes; that a uuid is not in use yet is assumed only where a lemma says so. Where
  one client's run is followed, other clients do not use its uuid.
* Names registered by request 825 end in NUL where directories must be apart; names that differ only
  in a last byte other than NUL share a directory. User names and file names are plain path
  components, and strings stand for their UTF-8 bytes.
* Among several rows of one name, which only a race can leave, a query fetches the one inserted first.
* `recv` may return less than it was asked for; what then becomes of the framing is part of the results.
* The client's file does not change while it is being sent and compared.
* The server's call depth is not exhausted. A 901 makes `handle_request` call itself, so some hundreds
  of them in a row reach the interpreter's limit; this client never sends two in a row, which is part
  of the results.

## Where the code differs from its comments and documentation

The model follows the code.

* The root documentation describes signatures, listings and downloads; no code implements them.
* An unknown request code ends the session: the handler is called before it is tested
  (`Server/requestHandler.py:286-290`), the exception becomes an empty response.
* `errorResend` always sends twice more, even when the first retry succeeds
  (`Client/Client.cpp:132-142`; `ClientHistory.ErrorIsResentTwice`).
* A sign-in that is refused registers anew, as its comment says; but a client that signs in has a me.info and
  refuses the 1600 because of it. The server keeps the new row, and the client goes on under the fixed uuid of
  the registration (`Client/Client.cpp:62`, `Client/responseHandler.cpp:47-53`;
  `ClientHistory.RefusedSignInRegisters`).
* `files` has the uuid as primary key, so a client has one row whatever it uploads
  (`Server/DefensiveDB.py:34-40`).
* 902 removes the file from disk whether its row is verified or not, and a later upload replaces a
  verified file (`Server/requestHandler.py:175-187`, `Server/requestHandler.py:221-229`).
* A 900 with an empty file name verifies the client's row whatever its name
  (`Server/DefensiveDB.py:80-85`).
* `receive_payload` counts what it asked for, not what it got (`Server/requestHandler.py:41-53`).
* `_crcValid` is true before any upload and keeps its value when an upload is answered by an error
  (`Client/Client.h:39`).

## Model

| member | source | states |
|---|---|---|
| Crc.TableEntry | Client/cksum_new.cpp:4-58 | every entry of the 256-entry table is its index moved through the one-bit step eight times, so the table is the generator's |
| Crc.TableIndex | Client/cksum_new.cpp:446 | on a register wider than 32 bits the index is still a byte: no access leaves the table |
| Crc.MaskedShift | Server/cksum.py:62-69 | the mask keeps the register below 2^32, so C++ and Python compute on the same 32 bits |
| Crc.ComputeMemcrc | Server/cksum.py:64-75 | the two loops (bytes, then length octets) give the checksum function for every byte string |
| Crc.CheckValue | Client/cksum_new.cpp:440-457 | the checksum of the nine digits 1 to 9 is 930766865, the value POSIX `cksum` prints |
| CrcTheory.ByteStepIsFeed | Client/cksum_new.cpp:446-447 | one table lookup divides eight message bits by the generator |
| CrcTheory.MemcrcIsRemainder | Client/cksum_new.cpp:440-457 | a word is the remainder of file plus length octets modulo 0x104c11db7 if and only if it is the complement of the checksum |
| Gf2.RemainderUnique | Client/cksum_new.cpp:440-457 | bitwise division gives the one and only remainder below the generator's degree |
| Gf2.FeedLinear | Client/cksum_new.cpp:440-457 | the register is linear in state and message |
| Gf2.BurstNonzero | Client/cksum_new.cpp:440-457 | a nonzero difference inside any window of 32 bits, byte-aligned or not, leaves a nonzero register |
| CrcDetection.BurstDetected | Client/cksum_new.cpp:440-457 | two files of one length that differ only within 32 consecutive bits have equal checksums if and only if they are equal |
| CrcDetection.ZeroFiles | Client/cksum_new.cpp:445-455 | files of n and m zero bytes have equal checksums if and only if one length is the other times a power of 256 |
| Cipher.ChainInverse | Client/EncryptionHandler.cpp:101-115 | CBC decryption undoes CBC encryption, block by block, and keeps the length |
| Cipher.UnpadOfPad | Server/CryptoHandler.py:56 | removing the padding gives back the plaintext |
| Cipher.PadOfUnpad | Server/CryptoHandler.py:56 | padding that is accepted is the padding of what remains |
| Cipher.CbcEquation | Client/EncryptionHandler.cpp:101-115 | byte by byte, each block of the cipher decrypts to the text, or to the padding after it, xor the block of cipher before; the first block to the text xor zeros |
| Cipher.DecryptIffEncrypt | Server/CryptoHandler.py:48-60 | the server's decryption returns a plaintext if and only if the key has 16, 24 or 32 bytes and the cipher is the client's encryption of that text; the cipher has 16*(n/16+1) bytes |
| Cipher.CbcFilter.Put | Client/EncryptionHandler.cpp:107-112 | a chunk of any size joins what was fed, and the sink is CBC of the whole blocks so far |
| Cipher.CbcFilter.MessageEnd | Client/EncryptionHandler.cpp:113 | the sink is CBC of everything fed, padded |
| Cipher.EncryptMsg | Client/EncryptionHandler.cpp:101-115 | feeding 16-byte chunks gives the same cipher as one-shot padded CBC |
| Protocol.HeaderRoundTrip | Client/connectionHandler.cpp:150-156 | the server's `<16sBHI` reads back every field the client wrote |
| Protocol.RequestLayout | Client/connectionHandler.cpp:150-156 | uuid, version, code and size of a request stand at bytes 0, 16, 17 and 19, least significant byte first |
| Protocol.ResponseLayout | Server/requestHandler.py:65-68 | version, code, size and payload of a response stand at bytes 0, 1, 3 and 7 |
| Protocol.SetRequestHeader | Client/connectionHandler.cpp:150-156 | four copies at moving offsets fill the 23 bytes with exactly the encoded header |
| Protocol.ResponseRoundTrip | Client/connectionHandler.cpp:79-145 | the client reads back every field of a response, and the bytes after it are left |
| Protocol.SetEncryptionPayload | Client/requestHandler.cpp:282-293 | the buffer of request 828 is filled, piece by piece, with exactly its five fields and the content |
| Protocol.GetFileName | Client/transferInfo.cpp:24-31 | the loop pads the name with pipe characters to 255 bytes |
| Protocol.NameRoundTrip | Server/requestHandler.py:249-258 | the server recovers the client's file name if and only if it has at most 255 bytes and no pipe character |
| Transport.RecvPayloadPrefix | Server/requestHandler.py:41-53 | what was read and what remains make up the stream, and no more than the requested size is consumed |
| Transport.RecvPayloadCalls | Server/requestHandler.py:41-53 | exactly ceil(size/1024) calls, and the full size comes back if and only if every call got all it asked for |
| Transport.RecvPayloadFraming | Server/requestHandler.py:41-53 | the stream is left exactly behind the payload, and the payload is whole, if and only if no call came back short |
| Transport.RecvPayloadFull | Server/requestHandler.py:41-53 | when no read is cut short, the payload is the next bytes of the stream |
| Transport.Socket.ReceivePayload | Server/requestHandler.py:41-53 | the loop on the socket does what the specification of the reads says |
| Transport.Socket.SendInChunks | Client/connectionHandler.cpp:52-71 | the chunks add up to the payload, in order |
| Database.DefensiveDB.Update | Server/DefensiveDB.py:77-90 | one column of one row changes; the file name restricts the row only when it is not empty |
| Database.DefensiveDB.FindUsername | Server/DefensiveDB.py:113-123 | fetches the uuid of the first row inserted under a name, or nothing if and only if no row has it |
| Database.DefensiveDB.AddNewClient | Server/DefensiveDB.py:125-130 | inserts a row with placeholder keys, and fails exactly on a uuid already there |
| Database.DefensiveDB.AddNewFile | Server/DefensiveDB.py:103-111 | adds an unverified row only if the client has none, and fails exactly for unknown clients |
| Database.DefensiveDB.DeleteUnverifiedFile | Server/DefensiveDB.py:137-145 | removes only an unverified row of that very name |
| Server.HandleRequest | Server/requestHandler.py:25-39 | every answered call consumes at least the 23 bytes of a header: the recursion through 901 ends |
| ServerAnswers.RegistrationAnswered | Server/requestHandler.py:73-98 | 1600 if and only if the name is 7-bit, no row has it and the uuid drawn is new; then one row is added, with placeholder keys; 1601 if and only if it is 7-bit and some row has it, with the uuid of the earliest; else an error, and nothing changes |
| ServerAnswers.PublicKeyAnswered | Server/requestHandler.py:103-129 | 1602 if and only if the client is registered, the key at the end of the payload can be imported and the new key encrypted; both keys are then stored |
| ServerAnswers.ShortKeyRefused | Server/requestHandler.py:103-129 | a payload of 160 bytes or less is refused and changes nothing |
| ServerAnswers.UploadAnsweredExactly | Server/requestHandler.py:147-187 | 1603 if and only if the client is registered, the name is valid and not all pipes, and the content is the encryption of some file under the stored key; else an error |
| ServerAnswers.PlaceholdersRefuse | Server/CryptoHandler.py:20-60 | a client that has not exchanged keys can neither sign in nor upload, and the attempt changes nothing |
| ServerAnswers.EndAnswered | Server/requestHandler.py:192-229 | 900 and 902 are answered by 1604 and the sender's uuid, whatever they find, unless the name is not UTF-8 |
| ServerAnswers.OtherVersionRefused | Server/requestHandler.py:280-285 | a packet of another version is an error and changes nothing |
| RequestHandler.RequestHandler.RegisterNewClient | Server/requestHandler.py:73-98 | store and answer of request 825, error path included, are those of the specification |
| RequestHandler.RequestHandler.GenerateKey | Server/CryptoHandler.py:20-46 | the new key is stored even when encrypting it then fails |
| RequestHandler.RequestHandler.HandlePublicKey | Server/requestHandler.py:103-129 | store and answer of request 826 |
| RequestHandler.RequestHandler.HandleSignIn | Server/requestHandler.py:134-142 | store and answer of request 827 |
| RequestHandler.RequestHandler.HandleEncryptedFile | Server/requestHandler.py:147-187 | store, disk and answer of request 828: file before row, checksum read back from disk |
| RequestHandler.RequestHandler.HandleValidOrAbort | Server/requestHandler.py:192-229 | store, disk and answer of requests 900 and 902 |
| RequestHandler.RequestHandler.Select | Server/requestHandler.py:260-291 | the dispatch by code, unknown codes giving no answer |
| RequestHandler.NumberedAfter | Server/DefensiveDB.py:125-130 | no request upsets the numbering of the rows, the only thing the class relies on |
| RequestHandler.RequestHandler.ServeRequest | Server/requestHandler.py:25-53 | one call, with the recursion of 901, leaves store, stream and answer as specified |
| RequestHandler.RequestHandler.HandleClient | Server/Server.py:31-47 | the session loop writes the encoded answers of the whole session, in order, and leaves its store |
| ServerHistory.RowStep | Server/DefensiveDB.py:77-111 | any request changes only its sender's row, and that one only from absent to unverified, to verified, or back to absent while unverified and of that name |
| ServerHistory.VerifiedForEver | Server/DefensiveDB.py:137-145 | in every run a verified row is never removed, renamed or unverified |
| ServerHistory.RowKeepsItsName | Server/DefensiveDB.py:103-111 | in every run a row keeps its names while it exists, and `verified` only goes from 0 to 1 |
| ServerHistory.VerifiedByConfirmation | Server/requestHandler.py:200-211 | a row that a run leaves verified was verified before, or a 900 of its own client naming it (or no file) is in the run |
| ServerHistory.StemsDiffer | Server/requestHandler.py:178-181 | unique names that end in NUL give different directories |
| ServerHistory.InvStep | Server/requestHandler.py:175-229 | every request keeps: unique names, rows only of registered clients with their path, unverified rows with their file on disk |
| ServerHistory.InvAlways | Server/DefensiveDB.py:103-145 | the same at every boundary of every run of whole requests |
| ServerSteps.OneOperation | Server/DefensiveDB.py:63-111 | a step between two of which others may come is one query or one file operation: it reads, or it writes to one table or to the disk and learns nothing else |
| ServerSteps.FinishIsHandle | Server/requestHandler.py:73-229 | a handler's steps taken without interruption do what the whole request does |
| Isolation.StepOfOther | Server/requestHandler.py:73-229 | a single query or file operation of anyone else, registrations included, leaves a client's rows and directory as they are |
| Isolation.StepOfOwn | Server/requestHandler.py:103-229 | a single query or file operation depends on nothing but its own client's rows and directory |
| Isolation.OtherStaysApart | Server/requestHandler.py:81-98 | not even a registration whose name was found free many steps earlier comes to share a registered client's directory |
| Isolation.IsolationOfClients | Server/DefensiveDB.py:63-111 | for every interleaving of the steps of any threads, whatever the others ask for without this client's uuid, new registrations included: the client's answers, rows and directory are those of its own requests, up to the first unknown code, handled alone and whole |
| Isolation.IsolationInGoodStore | Server/DefensiveDB.py:63-111 | the same for every registered client of a store that keeps the invariant, with no more assumed of directories |
| Isolation.RowOkBetweenRequests | Server/requestHandler.py:175-229 | with one session a client, its row belongs to it, has its path, and is verified or has its file on disk, whenever that session is between two requests, in every interleaving of all steps |
| Isolation.EnoughTurns | Server/Server.py:31-47 | nine turns for every request finish a client's session, whatever others do in between |
| Races.InsertKeepsUniqueNames | Server/requestHandler.py:81-98 | the insert of a registration keeps names unique if and only if the name is still free at that moment |
| Races.RegistrationRace | Server/requestHandler.py:81-98 | two sessions that look before either inserts are both registered under one name |
| Races.AbortSpares | Server/requestHandler.py:212-229 | another client's abort spares an unverified file if and only if directories or file names differ |
| Races.AbortCollides | Server/requestHandler.py:178-181 | the input: two names that differ in the last byte only, and a 902 of the one client that removes the other's file |
| Races.UploadAnswered | Server/cksum.py:77-86 | an upload that has written its file is answered if and only if the file is still there when it is read back, or its client is not in the table |
| Races.UploadRacesAbort | Server/requestHandler.py:221-229 | a 902 that comes in between, of any client and file, takes the upload's answer away if and only if it names the same file in the same directory |
| Races.RowRacesAbort | Server/requestHandler.py:175-187 | a 902 of the same client between the file and the row of an upload leaves an unverified row without its file, unless it names another file, or a row was there that is verified or of another name |
| Races.RowWithoutFile | Server/requestHandler.py:175-187 | the input on which the row invariant fails between single queries: a first upload and a 902 of its file |
| Races.AbortOfVerified | Server/requestHandler.py:212-229 | a 902 leaves a verified row, and its file on disk if and only if the 902 names another file |
| Races.UploadOverVerified | Server/requestHandler.py:175-187 | an upload leaves a verified row and replaces the file of the name it carries, no other |
| Races.RegisterTwice | Server/requestHandler.py:81-98 | whoever registers a name again is refused and told the uuid the first registration got |
| Races.RefusedSignIn | Server/CryptoHandler.py:20-46 | a sign-in of a registered client leaves the store as it is if and only if its public key is missing or cannot be imported; otherwise the key is replaced, and the sign-in accepted if and only if the new key can be encrypted |
| Lockstep.FramedRequest | Server/requestHandler.py:25-53 | one call on any stream: with full reads it takes exactly the next request and continues after a 901 as a call for the rest; with a cut header it ends the session; with a cut payload the handler gets a shorter one and the stream is out of step |
| Lockstep.Framing | Server/requestHandler.py:25-53 | a request leaves the stream at what follows it if and only if all its reads are full |
| Lockstep.CutDesynchronises | Server/requestHandler.py:46-50 | the input that puts a session out of step: 1000 bytes where 1024 were asked for leave the last 24 of the payload to be read as a header |
| Lockstep.UncutArriveAll | Server/requestHandler.py:41-53 | without cuts all reads of any requests are full |
| Lockstep.SessionInLockstep | Server/Server.py:31-47 | for every sequence of requests whose reads are full the session answers each one but the 901s, once and in order, up to the first unknown code |
| Lockstep.AnswersRoundTrip | Client/connectionHandler.cpp:79-145 | the client reads back the answers in order and nothing is left over |
| ClientRequests.TotalEncryptedPacket | Client/requestHandler.cpp:240-256 | the rounding loop ends, wrap-around included, with the rounded size in blocks or the error |
| ClientRequests.RoundingWraps | Client/requestHandler.cpp:248-251 | rounding wraps exactly for the fifteen largest sizes, which then count as zero packets |
| ClientRequests.SizeBound | Client/requestHandler.cpp:220-275 | a file can be sent if and only if it has at most 65535*16 bytes; then no 32-bit length wraps, the packet count is ceil(n/16), and it is the cipher's block count if and only if n is not a multiple of 16 |
| ClientRequests.UploadFields | Client/requestHandler.cpp:282-293 | the payload of an 828: the sizes of cipher and file, packet 1 of ceil(n/16), the name up to 255 bytes with pipes after it, and from byte 267 a cipher the server decrypts to the file |
| ClientModel.RequestContents | Client/requestHandler.cpp:34-158 | uuid and payload of every other packet; only an 827 can fail to be built, and exactly for which me.info |
| ClientRequests.EncryptFile | Client/requestHandler.cpp:67-96 | the payload of request 828, or the error, for every file |
| Exchange.AnswerFits | Server/requestHandler.py:65-68 | every answer fits the widths of its header |
| Exchange.SkipSilent | Server/requestHandler.py:233-245 | however many 901s wait on the stream, the request behind them gets its own answer |
| Exchange.ExchangeIsDirect | Client/Client.cpp:109-116 | through header, chunks, recursion and parsing, the response the client processes answers the request it has just sent |
| Exchange.ProcessKeepsControl | Client/responseHandler.cpp:12-27 | only a 1603 moves the checksum flag, and it says whether the checksums agree |
| Delivery.ForeignStep | Server/requestHandler.py:73-229 | in a good store no request of another client, registration included, touches a registered client's rows or directory |
| Delivery.ForeignRow | Server/DefensiveDB.py:77-90 | in any store only a client's own requests change its row in `clients` |
| Delivery.UploadStores | Server/requestHandler.py:147-187 | an upload answered with the client's checksum left a file of that checksum on disk, whatever bytes arrived |
| Delivery.AbortRemoves | Server/requestHandler.py:192-229 | a 902 removes exactly the file it names from its client's directory, and the row unless it is verified or of another name |
| Delivery.CrcInReply | Server/requestHandler.py:167-173 | owner, size and name of a 1603 stand where they belong, and its last four bytes are the checksum whatever the length of the name |
| Delivery.KeyExchanged | Client/EncryptionHandler.cpp:70-84 | a key the client accepts is the one the server has stored |
| Soundness.SendSound | Client/Client.cpp:109-116 | every packet that may be sent keeps the joint invariant of client and server |
| Soundness.KeysSent | Server/CryptoHandler.py:20-46 | every packet keeps the agreement of keys, whatever the store holds and whatever others register |
| ClientConduct.OperationPerforms | Client/Client.cpp:33-143 | every operation is a run of one automaton over the log, from its first phase to an end: what is sent next after every answer, retries and rounds included, under which uuid, which answers are accepted, and what becomes of uuid, files and flags; the program ends if and only if an upload ends otherwise than done |
| ClientHistory.RunTold | Client/Client.cpp:33-143 | after every run uuid, files and flags are those the log tells, and every packet fits what they were when it went out |
| ClientHistory.IdsAreOwn | Client/Client.cpp:76-94 | in every run each 826, 828, 900, 901 and 902 carries the starting uuid, one of an accepted 1600, or the one of an earlier 825 or 827; an 825 the fixed one, an 827 that of me.info |
| ClientHistory.FilesAreKept | Client/responseHandler.cpp:42-72 | in every run key.priv and me.info, once there, stay as they are; they are written only by a 1600, and a client is signed in if and only if it was or a 1605 was accepted |
| ClientHistory.OnlyFirstAccepted | Client/responseHandler.cpp:42-72 | a 1600 is accepted if and only if it is the first of the run and neither file existed before |
| ClientHistory.ErrorIsResentTwice | Client/Client.cpp:132-142 | an answer 1607 is followed by exactly two more packets of the same code, and the caller returns if and only if the last of the three was answered 1607; any other answer by none |
| ClientHistory.RefusedRegistration | Client/Client.cpp:76-94 | after an 825 the client carries the uuid of an accepted 1600, and otherwise the one the packet went out with, never that of a 1601 |
| ClientHistory.RegistrationEnters | Server/requestHandler.py:81-98 | a registration the server can carry out enters the client's name with a NUL, whatever the client makes of the answer |
| ClientHistory.RefusedSignInRegisters | Client/Client.cpp:57-70 | an 827 answered by 1606 is followed by exactly one packet, an 825; if the name is free a row for it is then there, but the client refuses its uuid |
| GivingUp.FailedUploadIsRemoved | Client/Client.cpp:122-130 | no answer stops the repeated uploads of a file that can be sent; if they fail, the fifth packet is a 902 answered by 1604, and the client's directory then has no file of its name and its row is not an unverified one of it |
| GivingUp.AbortedFileIsGone | Server/requestHandler.py:212-229 | the same of the server after every run that ends with a 902 |
| GivingUp.UploadEndsProgram | Client/Client.cpp:33-48 | `uploadFile` ends the program if and only if an 826 failed, or the keys are exchanged and the file has more than 65535*16 bytes |
| ClientRuns.SendWithResendFacts | Client/Client.cpp:132-142 | an error costs at most three packets, and if the upload went through the flag tells whether it was validated |
| ClientRuns.RoundsFacts | Client/Client.cpp:122-126 | the loop sends 901 and 828 alternately, at most n times each, and stops at the first validated upload |
| ClientRuns.ResendFacts | Client/Client.cpp:122-130 | it ends with a validated upload, or with a 902 after exactly two rounds that failed like the upload before them, or with an exception during the rounds |
| ClientRuns.UploadBounded | Client/Client.cpp:33-48 | one `uploadFile` sends at most 13 packets, five of them 828 and two 901, and never both 900 and 902 |
| ClientRuns.ConfirmationsAreValidated | Client/Client.cpp:33-48 | in every run of operations, on any server store and with any other clients, each 900 follows an upload answered with the client's own checksum, each 902 three failed uploads around two 901s, and each 901 comes right after an upload |
| ClientRuns.ValidatedFileIsOnDisk | Client/Client.cpp:33-48 | after every run whose latest upload was validated, the server holds a file of that checksum under the client's name, and it is the client's file unless they differ by more than a burst of 32 bits |
| ClientRuns.ConfirmedFileIsOnDisk | Client/Client.h:16-19 | the same at the moment a 900 goes out, the first time or again, for the uuid it goes out with |
| ClientRuns.KeysAgreeAfterRuns | Server/CryptoHandler.py:20-46 | after every run whose latest 826 or 827 was answered with a key and accepted, the client's key is the server's for that uuid, whatever else the server holds |
| EndToEnd.StoredNameIsOwn | Client/transferInfo.cpp:24-31 | the name a file is stored under is the client's if and only if it fits the field and has no pipe character |
| EndToEnd.FileArrives | Server/requestHandler.py:147-187 | with agreeing keys the handler stores exactly the client's file and answers with its checksum |
| EndToEnd.FlagTellsCorruption | Client/responseHandler.cpp:100-113 | the client's flag is true if and only if the checksums agree; for a burst of 32 bits, if and only if the contents do |
| EndToEnd.UploadArrives | Client/requestHandler.cpp:67-96 | one upload changes the server's store by exactly this file and row, and sets the flag |
| EndToEnd.ConfirmationArrives | Server/requestHandler.py:192-219 | a 900 for a held file is answered by 1604, keeps the file, and verifies the row exactly if it has the file's name or was verified |
| EndToEnd.UploadEndToEnd | Client/Client.cpp:33-48 | with an accepted key and no corruption, 828 and 900 are enough; the disk holds exactly the client's file, and the row is a verified one of its name if and only if the client had no row or one of that name |
| EndToEnd.KeyPhaseHasKey | Client/Client.cpp:35-38 | a key phase that was not skipped ends with an accepted key for the client's present uuid |
| FirstUpload.RegistrationArrives | Client/Client.cpp:76-94 | a client with a new name gets the drawn uuid, keeps it as its own, and has its key file |
| FirstUpload.KeyPhaseArrives | Server/requestHandler.py:103-129 | the public key is taken off the end of the payload, past the name, and with a matching private key the exchange succeeds |
| FirstUpload.FirstUploadSucceeds | Client/Client.cpp:148-149 | registration, keys, upload and confirmation take four packets and leave exactly the client's file with a verified row, in the directory of its user name, while other clients go on |
| MainProgram.SignInArrives | Client/Client.cpp:57-70 | a client whose files and public key are in place signs in with one packet; the stored key is replaced by the drawn one, which the client then holds |
| MainProgram.SecondUpload | Client/Client.cpp:151-152 | signing in and uploading again takes three packets and leaves exactly the file and the row verified |
| MainProgram.MainSucceeds | Client/Client.cpp:145-154 | all of `main` takes seven packets; after either upload the disk holds exactly the client's file and the row is verified under its name; the user name stored is the client's with a NUL, and the directory is named by it |
| SharedServer.RunAmongOthers | Server/DefensiveDB.py:63-111 | a client handled by one thread among others, whose single steps come in between its own, sees the answers it would see alone, and the shared store holds of it what the store would hold alone |
| SharedServer.SoloTrace | Client/Client.cpp:109-116 | every run of the client alone is the trace of its packets handled one after the other |
| SharedServer.ValidatedFileIsShared | Client/Client.cpp:33-48 | after any run of a registered client whose latest upload was validated, and any interleaving of all threads' steps, the shared disk holds a file of that checksum, and the client's own but for more than a burst of 32 bits |
| SharedServer.ConfirmedFileIsShared | Client/Client.h:16-19 | the same whenever a 900 goes out, the first time or again |
| SharedServer.KeysAgreeShared | Server/CryptoHandler.py:20-46 | after any run whose latest key exchange was accepted, and any interleaving, the client's key is the one in the shared table |
| FirstUpload.FirstUploadIsPossible | Client/Client.cpp:145-154 | a setting and a client that meet every assumption of the first upload and of `main` at once |
| Client.ReceiveData | Client/connectionHandler.cpp:79-145 | reading in chunks gives the parsed response, or fails on too few bytes |
| Client.Client.RequestSelector | Client/requestHandler.cpp:201-212 | each builder yields the packet of its code, or fails as the specification says |
| Client.Client.SendData | Client/connectionHandler.cpp:28-46 | header and chunks put exactly the encoded request on the socket |
| Client.Client.CreateNewClientFile | Client/responseHandler.cpp:42-72 | key file and identity file are written, or what stands in the way is left, as specified |
| Client.Client.CheckSum | Client/responseHandler.cpp:100-113 | the flag becomes the equality of the local checksum and the response's last four bytes |
| Client.Client.ResponseSelector | Client/responseHandler.cpp:12-27 | the client's state and verdict after any response |
| Client.Client.SendAndReceive | Client/Client.cpp:109-116 | sending, the server's handling and reading the answer, in place, are one exchange of the specification |
| Client.Client.ErrorResend | Client/Client.cpp:132-142 | the loop sends twice more, whatever the first answer, and reports the last one |
| Client.Client.ResendEncryptedMessage | Client/Client.cpp:122-130 | the loop over the flag does what the rounds and the abort specify |
| Client.Client.UploadFile | Client/Client.cpp:33-48 | the whole operation with its early returns and its exception, in place |
| Client.Client.RegisterNewClient | Client/Client.cpp:76-94 | the operation in place; success means the client now carries the uuid it was given |
| Client.Client.SignIn | Client/Client.cpp:57-70 | the operation in place, falling back to registration |
| Client.Client.RunOperations | Client/Client.cpp:145-154 | any program of operations, in place, up to an exception that ends it |
| Client.Connect | Client/Client.cpp:10-23 | a new client, connected to a server with an empty database, is in a valid state |
| Identity.HexRoundTrip | Client/responseHandler.cpp:128-134 | two lower-case digits a byte, read back to the same bytes |
| Identity.WriteHex | Client/responseHandler.cpp:128-134 | the loop into the stream writes the hexadecimal text |
| Identity.UuidToBinary | Client/requestHandler.cpp:163-174 | the loop over pairs of characters, read as `std::stoi` reads them, gives the bytes and a NUL after them, or fails |
| Identity.IdentityRoundTrip | Client/requestHandler.cpp:176-198 | name and uuid written to me.info come back if and only if the name is one non-empty line of at most 255 bytes; the third part of the file is the private key |
| Identity.SignInFromFile | Client/requestHandler.cpp:143-158 | request 827 is built from exactly what the file gives back, or fails with it |
| Identity.RegisteredIdentity | Client/responseHandler.cpp:42-72 | after registration the file gives back the very name the server stored for that uuid |

## Left out

- AES, RSA, OAEP, key generation, DER and Base64 are libraries; they are arbitrary functions with the assumptions above.
- Sockets, listening, threads as such, and failing writes: the transport is a stream of bytes, sessions are interleaved steps.
- SQLite and file system failures, `last_seen`, path syntax, and the directory `mkdir` leaves behind when a file cannot be written.
- UTF-8 decoding: validity is a predicate, and a string is its bytes.
- transfer.info and port.info, console output, exception texts, and the order of member initialisation in the client's constructor.
- The checksum tables `crctab[1]` to `crctab[7]` of the client, which `memcrc` does not use.
- Client.Client.RequestSelector: the key generated at start and the key file are values of the configuration; writing and parsing the private key are not modelled.
- Exchange.ExchangeIsDirect: between client and server no read is cut short; cut reads are covered for the server's receiving loop alone, by `Transport.RecvPayloadCalls`.
- ClientRuns.ValidatedFileIsOnDisk: other clients' requests are handled whole between two packets of the client; `SharedServer.ValidatedFileIsShared` states it for single queries, once the client is registered.
- ClientRuns.ConfirmedFileIsOnDisk: likewise, with `SharedServer.ConfirmedFileIsShared`.
- ClientRuns.KeysAgreeAfterRuns: likewise, with `SharedServer.KeysAgreeShared`.
- ServerHistory.InvAlways: for requests handled whole; between single queries unique names fail by `Races.RegistrationRace` and a row can be without its file by `Races.RowRacesAbort`, both with their exact conditions, and `Isolation.RowOkBetweenRequests` says what remains.
- Transport.Socket.SendInChunks: a write that fails or stops short is not modelled; Boost.Asio's `write` sends everything or throws.
- Client.Client.SendData: as for `SendInChunks`.
- Client.ReceiveData: works on the bytes that arrive; socket errors other than too few bytes are not modelled.
- Client.Client.SendAndReceive: reads are not cut short and writes do not fail, as for the parts it is made of.
- Client.Client.CreateNewClientFile: files that cannot be opened are not modelled.
- Database.DefensiveDB.Update: leaves out the second query, which only stores the time of the last request.
