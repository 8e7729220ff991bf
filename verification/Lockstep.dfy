/**
 One session over its byte stream: framed requests come out as they went in, and the answers
 match them one to one, 901 excepted.
 */
module Lockstep {
  import opened Bytes
  import opened Database
  import opened Protocol
  import opened Transport
  import opened Server
  import opened ServerHistory

  /** What a client has written after sending these requests. */
  ghost function EncodeAll(reqs: seq<Request>): Bytes
    requires forall r :: r in reqs ==> r.Fits()
  {
    if reqs == [] then [] else EncodeRequest(reqs[0]) + EncodeAll(reqs[1..])
  }

  /** The requests that are answered: all but the 901s, up to the first unknown code. */
  function Answered(reqs: seq<Request>): seq<Request> {
    if reqs == [] || Unknown(reqs[0]) then []
    else if Silent(reqs[0]) then Answered(reqs[1..])
    else [reqs[0]] + Answered(reqs[1..])
  }

  /** These requests as events; request number i of the session draws `draws(i)`. */
  function Events(reqs: seq<Request>, draws: nat -> Draw, i: nat): seq<Event> {
    if reqs == [] then [] else [Event(reqs[0], draws(i))] + Events(reqs[1..], draws, i + 1)
  }

  function Somes(answers: seq<Response>): seq<Option<Response>> {
    if answers == [] then [] else [Some(answers[0])] + Somes(answers[1..])
  }

  /** A request with a handler is always answered. */
  lemma KnownIsAnswered(c: Crypto, st: Store, r: Request, draw: Draw)
    requires c.Valid()
    ensures Handle(c, st, r, draw).1.Some? <==> !Silent(r) && !Unknown(r)
    ensures Handle(c, st, r, draw).1.None? ==> Handle(c, st, r, draw).0 == st
  {
    hide Register, PublicKey, SignIn, EncryptedFile, ValidOrAbort;
  }

  /** The stream after reading a header and a payload of this size. */
  function AfterRequest(s: Stream, size: nat): Stream {
    RecvPayload(Recv(s, REQUEST_HEADER_SIZE).1, size).1
  }

  /** None of the reads of a request with this payload size comes back short. */
  ghost predicate Arrives(s: Stream, size: nat) {
    AllFull(AfterRequest(s, size).calls, |s.calls|)
  }

  /** None of the reads of these requests comes back short. */
  ghost predicate ArriveAll(s: Stream, reqs: seq<Request>)
    decreases reqs
  {
    reqs == [] ||
    (Arrives(s, |reqs[0].payload|) && ArriveAll(AfterRequest(s, |reqs[0].payload|), reqs[1..]))
  }

  /** The header's read is one of them. */
  lemma ArrivesParts(s: Stream, size: nat)
    ensures var (data, s1) := Recv(s, REQUEST_HEADER_SIZE);
      Arrives(s, size) <==> |data| == REQUEST_HEADER_SIZE && AllFull(AfterRequest(s, size).calls, |s1.calls|)
  {
    hide RecvPayload, AllFull;
    var (data, s1) := Recv(s, REQUEST_HEADER_SIZE);
    RecvPayloadCalls(s1, size);
    AllFullNext(s.calls, (REQUEST_HEADER_SIZE, |data|), AfterRequest(s, size).calls);
  }

  /** The header of an encoded request, if it is read whole, and what is left then. */
  lemma HeaderArrives(s: Stream, r: Request, rest: Bytes)
    requires r.Fits() && s.pending == EncodeRequest(r) + rest
    ensures var (data, s1) := Recv(s, REQUEST_HEADER_SIZE);
      |data| == REQUEST_HEADER_SIZE ==>
        var h := ParseRequestHeader(data);
        && h == Header(r.clientID, r.version, r.code, |r.payload|)
        && s1.pending == r.payload + rest
  {
    hide ParseRequestHeader, RequestHeader;
    var h := Header(r.clientID, r.version, r.code, |r.payload|);
    HeaderRoundTrip(h);
    var (data, s1) := Recv(s, REQUEST_HEADER_SIZE);
    if |data| == REQUEST_HEADER_SIZE {
      assert data == (data + s1.pending)[..REQUEST_HEADER_SIZE];
      assert s1.pending == (data + s1.pending)[REQUEST_HEADER_SIZE..];
      assert data == RequestHeader(h);
      assert s1.pending == r.payload + rest;
    }
  }

  /** A request followed by `rest` leaves the stream at `rest` exactly when all its reads are full. */
  lemma Framing(s: Stream, r: Request, rest: Bytes)
    requires r.Fits() && s.pending == EncodeRequest(r) + rest
    ensures AfterRequest(s, |r.payload|).pending == rest <==> Arrives(s, |r.payload|)
  {
    hide RecvPayload, Recv, ParseRequestHeader, EncodeRequest, Arrives, AllFull;
    HeaderArrives(s, r, rest);
    ArrivesParts(s, |r.payload|);
    var (data, s1) := Recv(s, REQUEST_HEADER_SIZE);
    if |data| == REQUEST_HEADER_SIZE {
      RecvPayloadFraming(s1, r.payload, rest);
    } else {
      RecvPayloadPrefix(s1, |r.payload|);
      RecvPayloadCalls(s1, |r.payload|);
      var (payload, s2) := RecvPayload(s1, |r.payload|);
      assert |data + s1.pending| == |EncodeRequest(r) + rest|;
      assert |payload + s2.pending| == |s1.pending|;
    }
  }

  /** What `handle_request` does once header and payload are read. */
  ghost function Serve(c: Crypto, st: Store, r: Request, after: Stream, draw: Draw): Outcome
    requires c.Valid()
  {
    if Silent(r) then HandleRequest(c, st, after, draw)
    else
      var (st', answer) := Handle(c, st, r, draw);
      Outcome(st', after, answer)
  }

  lemma HandleRequestServes(c: Crypto, st: Store, s: Stream, draw: Draw)
    requires c.Valid() && |Recv(s, REQUEST_HEADER_SIZE).0| == REQUEST_HEADER_SIZE
    ensures var (data, s1) := Recv(s, REQUEST_HEADER_SIZE);
      var h := ParseRequestHeader(data);
      var (payload, s2) := RecvPayload(s1, h.size);
      HandleRequest(c, st, s, draw) ==
      Serve(c, st, Request(h.clientID, h.version, h.code, payload), s2, draw)
  {
    hide Handle, RecvPayload, Recv, ParseRequestHeader;
  }

  /**
   One call on a request followed by `rest`.  If all reads are full it serves that request, and goes
   on after a 901 as if called again.  If the header is cut the session ends.  If only the payload
   is cut, the handler gets a shorter one and the stream is out of step.
   */
  lemma FramedRequest(c: Crypto, st: Store, s: Stream, r: Request, rest: Bytes, draw: Draw)
    requires c.Valid() && r.Fits() && s.pending == EncodeRequest(r) + rest
    ensures var o := HandleRequest(c, st, s, draw); var after := AfterRequest(s, |r.payload|);
      if Arrives(s, |r.payload|) then
        after.pending == rest && o == Serve(c, st, r, after, draw)
      else if |Recv(s, REQUEST_HEADER_SIZE).0| < REQUEST_HEADER_SIZE then
        o.answer.None? && o.st == st
      else
        var payload := RecvPayload(Recv(s, REQUEST_HEADER_SIZE).1, |r.payload|).0;
        |payload| < |r.payload| && after.pending != rest && o == Serve(c, st, r.(payload := payload), after, draw)
  {
    hide Handle, RecvPayload, Recv, ParseRequestHeader, HandleRequest, Serve, EncodeRequest, Arrives, AllFull;
    HeaderArrives(s, r, rest);
    ArrivesParts(s, |r.payload|);
    Framing(s, r, rest);
    var (data, s1) := Recv(s, REQUEST_HEADER_SIZE);
    if |data| == REQUEST_HEADER_SIZE {
      RecvPayloadFraming(s1, r.payload, rest);
      HandleRequestServes(c, st, s, draw);
    } else {
      CutHeader(c, st, s, draw);
    }
  }

  lemma CutHeader(c: Crypto, st: Store, s: Stream, draw: Draw)
    requires c.Valid() && |Recv(s, REQUEST_HEADER_SIZE).0| < REQUEST_HEADER_SIZE
    ensures HandleRequest(c, st, s, draw).answer.None? && HandleRequest(c, st, s, draw).st == st
  {
    hide Handle, RecvPayload, ParseRequestHeader, Recv;
  }

  /** Without cuts all reads are full. */
  lemma UncutArrives(s: Stream, r: Request, rest: Bytes)
    requires r.Fits() && s.cuts == [] && s.pending == EncodeRequest(r) + rest
    ensures Arrives(s, |r.payload|) && AfterRequest(s, |r.payload|).cuts == []
  {
    hide RecvPayload, ParseRequestHeader, RequestHeader, Arrives, AllFull;
    HeaderArrives(s, r, rest);
    ArrivesParts(s, |r.payload|);
    var s1 := Recv(s, REQUEST_HEADER_SIZE).1;
    RecvPayloadFull(s1, |r.payload|);
    RecvPayloadFraming(s1, r.payload, rest);
    assert RecvPayload(s1, |r.payload|).0 == r.payload;
  }

  lemma {:induction false} UncutArriveAll(s: Stream, reqs: seq<Request>)
    requires forall r :: r in reqs ==> r.Fits()
    requires s.cuts == [] && s.pending == EncodeAll(reqs)
    ensures ArriveAll(s, reqs)
    decreases reqs
  {
    hide Arrives, AfterRequest, EncodeRequest;
    if reqs != [] {
      assert reqs[0] in reqs;
      UncutArrives(s, reqs[0], EncodeAll(reqs[1..]));
      Framing(s, reqs[0], EncodeAll(reqs[1..]));
      UncutArriveAll(AfterRequest(s, |reqs[0].payload|), reqs[1..]);
    }
  }

  /**
   A `recv` that gives 1000 bytes where 1024 were asked for: the last 24 bytes of the payload stay on
   the stream, and the next header is read from them.
   */
  lemma CutDesynchronises(r: Request, rest: Bytes)
    requires r.Fits() && |r.payload| == 2048
    ensures var s := Stream(EncodeRequest(r) + rest, [REQUEST_HEADER_SIZE, 1000], []);
      AfterRequest(s, 2048).pending == r.payload[2024..] + rest
  {
    hide RequestHeader;
    var s := Stream(EncodeRequest(r) + rest, [REQUEST_HEADER_SIZE, 1000], []);
    var (_, s1) := Recv(s, REQUEST_HEADER_SIZE);
    assert s1.pending == r.payload + rest;
    var (_, s2) := Recv(s1, CHUNK_SIZE);
    RecvPayloadNext(s1, 2048);
    assert s2.pending == r.payload[1000..] + rest;
    var (_, s3) := Recv(s2, CHUNK_SIZE);
    RecvPayloadNext(s2, 1024);
    assert s3.pending == r.payload[2024..] + rest;
    NothingLeft(s3);
  }

  lemma EmptyStream(c: Crypto, st: Store, s: Stream, draw: Draw)
    requires c.Valid() && s.pending == []
    ensures HandleRequest(c, st, s, draw).answer.None? && HandleRequest(c, st, s, draw).st == st
  {
    hide Handle, RecvPayload, ParseRequestHeader;
  }

  /**
   The whole session, when no read comes back short: its answers are, in order, those of the answered
   requests handled one after the other, and the store is what they leave.
   */
  lemma {:induction false} SessionInLockstep(
    c: Crypto, st: Store, s: Stream, reqs: seq<Request>, draws: nat -> Draw, i: nat)
    requires c.Valid()
    requires forall r :: r in reqs ==> r.Fits()
    requires s.pending == EncodeAll(reqs) && ArriveAll(s, reqs)
    ensures var (st', answers) := Session(c, st, s, draws, i);
      (st', Somes(answers)) == HandleAll(c, st, Events(Answered(reqs), draws, i))
    decreases reqs
  {
    hide Handle, HandleRequest, EncodeRequest, Unknown, Silent, Arrives, AfterRequest, Recv, RecvPayload;
    if reqs == [] {
      EmptyStream(c, st, s, draws(i));
    } else {
      var r, rest := reqs[0], reqs[1..];
      assert r in reqs;
      FramedRequest(c, st, s, r, EncodeAll(rest), draws(i));
      var after := AfterRequest(s, |r.payload|);
      KnownIsAnswered(c, st, r, draws(i));
      if Silent(r) {
        SilentIsKnown(r);
        SessionInLockstep(c, st, after, rest, draws, i);
      } else {
        var o := HandleRequest(c, st, s, draws(i));
        SessionInLockstep(c, o.st, o.stream, rest, draws, i + 1);
      }
    }
  }

  lemma SilentIsKnown(r: Request)
    requires Silent(r)
    ensures !Unknown(r)
  {
  }

  // ---- the client's side of the stream --------------------------------------------------------

  function EncodeAnswers(answers: seq<Response>): Bytes {
    if answers == [] then [] else EncodeResponse(answers[0]) + EncodeAnswers(answers[1..])
  }

  /** `n` responses read one after the other. */
  function ParseAnswers(b: Bytes, n: nat): Option<(seq<Response>, Bytes)> {
    if n == 0 then Some(([], b))
    else match ParseResponse(b)
      case None => None
      case Some((r, rest)) =>
        match ParseAnswers(rest, n - 1)
        case None => None
        case Some((rs, end)) => Some(([r] + rs, end))
  }

  /** The client reads back the answers that were sent, in order, and nothing is left over. */
  lemma {:induction false} AnswersRoundTrip(answers: seq<Response>)
    requires forall r :: r in answers ==> r.Fits()
    ensures ParseAnswers(EncodeAnswers(answers), |answers|) == Some((answers, []))
  {
    hide ParseResponse, EncodeResponse;
    if answers != [] {
      assert answers[0] in answers;
      ResponseRoundTrip(answers[0], EncodeAnswers(answers[1..]));
      AnswersRoundTrip(answers[1..]);
      assert [answers[0]] + answers[1..] == answers;
    }
  }
}
