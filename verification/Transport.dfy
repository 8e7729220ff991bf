/**
 A connection as two byte streams.  What one `recv` returns is out of the program's hands, so the
 receiving side carries a list of `cuts`: the most bytes each coming call will be given.  When
 the list is empty every call gets all it asks for, as far as the stream reaches.
 */
module Transport {
  import opened Bytes
  import opened Protocol

  /** The receiving side: bytes not yet read, coming cuts, and (asked, got) for every past call. */
  datatype Stream = Stream(pending: Bytes, cuts: seq<nat>, calls: seq<(nat, nat)>)

  function Min(a: nat, b: nat): nat {
    if a < b then a else b
  }

  /** What one `recv(n)` returns, and the stream after it. */
  function Recv(s: Stream, n: nat): (r: (Bytes, Stream))
    ensures |r.0| <= n && r.0 + r.1.pending == s.pending
  {
    var k := Min(Min(n, |s.pending|), if s.cuts == [] then n else s.cuts[0]);
    (s.pending[..k],
     Stream(s.pending[k..], if s.cuts == [] then [] else s.cuts[1..], s.calls + [(n, k)]))
  }

  /** Server/requestHandler.py: `receive_payload`; the size goes down by what was asked for. */
  function RecvPayload(s: Stream, size: nat): (Bytes, Stream)
    decreases size
  {
    if size == 0 then ([], s)
    else
      var (data, s1) := Recv(s, Min(size, CHUNK_SIZE));
      var (rest, s2) := RecvPayload(s1, size - Min(size, CHUNK_SIZE));
      (data + rest, s2)
  }

  lemma RecvPayloadNext(s: Stream, size: nat)
    requires size > 0
    ensures var k := Min(size, CHUNK_SIZE);
      var (data, s1) := Recv(s, k);
      var (rest, s2) := RecvPayload(s1, size - k);
      && RecvPayload(s, size) == (data + rest, s2)
      && s1.calls == s.calls + [(k, |data|)] && |data| <= k
  {
  }

  function Chunks(size: nat): nat {
    (size + CHUNK_SIZE - 1) / CHUNK_SIZE
  }

  /** Every call from number `from` on was given all it asked for. */
  ghost predicate AllFull(calls: seq<(nat, nat)>, from: nat) {
    forall i :: from <= i < |calls| ==> calls[i].1 == calls[i].0
  }

  lemma ChunksNext(size: nat)
    requires size > 0
    ensures Chunks(size) == 1 + Chunks(size - Min(size, CHUNK_SIZE))
  {
  }

  /** The payload is a piece off the front of the stream. */
  lemma {:induction false} RecvPayloadPrefix(s: Stream, size: nat)
    ensures var (payload, s') := RecvPayload(s, size); payload + s'.pending == s.pending
    decreases size
  {
    hide Recv;
    if size > 0 {
      var (data, s1) := Recv(s, Min(size, CHUNK_SIZE));
      RecvPayloadPrefix(s1, size - Min(size, CHUNK_SIZE));
      var (rest, s2) := RecvPayload(s1, size - Min(size, CHUNK_SIZE));
      assert (data + rest) + s2.pending == data + (rest + s2.pending);
    }
  }

  /**
   Whatever `recv` does: the number of calls depends on the size alone, no more than `size` bytes
   are taken, and all of them arrive exactly when no call came back short.
   */
  lemma {:induction false} RecvPayloadCalls(s: Stream, size: nat)
    ensures var (payload, s') := RecvPayload(s, size);
      && |payload| <= size
      && |s'.calls| == |s.calls| + Chunks(size)
      && s.calls <= s'.calls
      && (|payload| == size <==> AllFull(s'.calls, |s.calls|))
    decreases size
  {
    hide Chunks, AllFull, Recv;
    if size == 0 {
      NoChunks(s.calls);
    } else {
      var k := Min(size, CHUNK_SIZE);
      var (data, s1) := Recv(s, k);
      hide RecvPayload;
      RecvPayloadNext(s, size);
      RecvPayloadCalls(s1, size - k);
      var (rest, s2) := RecvPayload(s1, size - k);
      ChunksNext(size);
      AllFullNext(s.calls, (k, |data|), s2.calls);
    }
  }

  lemma AllFullNext(before: seq<(nat, nat)>, call: (nat, nat), calls: seq<(nat, nat)>)
    requires before + [call] <= calls
    ensures AllFull(calls, |before|) <==> call.1 == call.0 && AllFull(calls, |before| + 1)
  {
    assert calls[|before|] == call;
  }

  lemma NoChunks(calls: seq<(nat, nat)>)
    ensures Chunks(0) == 0 && AllFull(calls, |calls|)
  {
  }

  /**
   A payload of a known length, followed by `rest`: the stream is left at `rest` exactly when no call
   came back short, and then the payload is whole.
   */
  lemma RecvPayloadFraming(s: Stream, body: Bytes, rest: Bytes)
    requires s.pending == body + rest
    ensures var (payload, s') := RecvPayload(s, |body|);
      && (s'.pending == rest <==> AllFull(s'.calls, |s.calls|))
      && (AllFull(s'.calls, |s.calls|) <==> payload == body)
      && |payload| <= |body| && (|payload| == |body| ==> payload == body)
  {
    hide RecvPayload, AllFull;
    RecvPayloadPrefix(s, |body|);
    RecvPayloadCalls(s, |body|);
    var (payload, s') := RecvPayload(s, |body|);
    assert |payload + s'.pending| == |body + rest|;
    if |payload| == |body| {
      assert payload == (payload + s'.pending)[..|body|] && s'.pending == (payload + s'.pending)[|body|..];
      assert body == (body + rest)[..|body|] && rest == (body + rest)[|body|..];
    }
  }

  /** Without cuts the payload is the next `size` bytes, or all there are. */
  lemma {:induction false} RecvPayloadFull(s: Stream, size: nat)
    requires s.cuts == []
    ensures var (payload, s') := RecvPayload(s, size);
      s'.cuts == [] && payload == s.pending[..Min(size, |s.pending|)]
    decreases size
  {
    if size > 0 {
      var k := Min(size, CHUNK_SIZE);
      var (data, s1) := Recv(s, k);
      RecvPayloadFull(s1, size - k);
      var (payload, s') := RecvPayload(s, size);
      RecvPayloadPrefix(s, size);
      assert |payload| == Min(size, |s.pending|);
      assert payload == (payload + s'.pending)[..|payload|];
    }
  }

  /** `payload` so far and what the rest of the calls `rest` gives make up `whole`. */
  ghost predicate Gathered(payload: Bytes, rest: (Bytes, Stream), whole: (Bytes, Stream)) {
    payload + rest.0 == whole.0 && rest.1 == whole.1
  }

  lemma NothingLeft(s: Stream)
    ensures RecvPayload(s, 0) == ([], s)
  {
  }

  // ---- the sockets --------------------------------------------------------------------------

  class Socket {
    var incoming: Stream
    var outgoing: Bytes

    constructor (incoming: Stream)
      ensures this.incoming == incoming && outgoing == []
    {
      this.incoming, outgoing := incoming, [];
    }

    method Receive(n: nat) returns (data: Bytes)
      modifies this`incoming
      ensures (data, incoming) == Recv(old(incoming), n)
    {
      var r := Recv(incoming, n);
      data, incoming := r.0, r.1;
    }

    method Write(data: Bytes) returns (sent: nat)
      modifies this`outgoing
      ensures outgoing == old(outgoing) + data && sent == |data|
    {
      outgoing := outgoing + data;
      sent := |data|;
    }

    /** Server/requestHandler.py: `receive_payload`. */
    method ReceivePayload(payloadSize: nat) returns (payload: Bytes)
      modifies this`incoming
      ensures (payload, incoming) == RecvPayload(old(incoming), payloadSize)
    {
      hide Recv, RecvPayload;
      ghost var whole := RecvPayload(incoming, payloadSize);
      var toGet := Min(payloadSize, CHUNK_SIZE);
      var size := payloadSize;
      payload := [];
      while size > 0
        invariant toGet == Min(size, CHUNK_SIZE)
        invariant Gathered(payload, RecvPayload(incoming, size), whole)
      {
        RecvPayloadNext(incoming, size);
        var data := Receive(toGet);
        payload := payload + data;
        size := size - toGet;
        toGet := Min(size, CHUNK_SIZE);
      }
      NothingLeft(incoming);
      assert payload + [] == payload;
      assert whole == (whole.0, whole.1);
    }

    /** Client/connectionHandler.cpp: `sendInChunks`. */
    method SendInChunks(payload: Bytes) returns (ok: bool)
      modifies this`outgoing
      ensures ok && outgoing == old(outgoing) + payload
    {
      var size: nat := |payload|;
      var toSend := Min(size, CHUNK_SIZE);
      var offset := 0;
      while size > 0
        invariant offset + size == |payload| && toSend == Min(size, CHUNK_SIZE)
        invariant outgoing == old(outgoing) + payload[..offset]
      {
        var bytesSent := Write(payload[offset..offset + toSend]);
        if bytesSent != toSend {
          return false;
        }
        size := size - toSend;
        offset := offset + toSend;
        toSend := Min(size, CHUNK_SIZE);
        assert payload[..offset] == payload[..offset - bytesSent] + payload[offset - bytesSent..offset];
      }
      assert payload[..offset] == payload;
      ok := true;
    }
  }
}
