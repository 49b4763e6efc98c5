/**
 The daemon's end of the byte stream: how `APIClient::run` reads requests, how `send_response`
 writes replies, and the second copy of the request format in `handle_begin_poll`, all over one
 message buffer. The kernel is two scripts, as it is for the client.
 */
module ApiSession {
  import opened Bytes
  import opened Collections
  import opened DtnIpc
  import opened IpcDefs

  datatype Incoming = NoRequest | Got(request: Request)

  class Session {
    var buf: array<Byte>
    var encPos: nat          // position of the reply encoder, counted from buf[8]
    var totalSent: nat
    var totalRcvd: nat
    var closed: bool         // `close_client` has run

    var reading: seq<Io>
    var writing: seq<Io>
    var incoming: seq<Byte>
    var outgoing: seq<Byte>

    constructor (reading: seq<Io>, writing: seq<Io>, incoming: seq<Byte>)
      ensures Valid() && !closed && encPos == 0 && totalSent == totalRcvd == 0 && outgoing == []
      ensures this.reading == reading && this.writing == writing && this.incoming == incoming && fresh(buf)
    {
      buf := new Byte[MAX_API_MSG](_ => 0);
      encPos, totalSent, totalRcvd, closed, outgoing := 0, 0, 0, false, [];
      this.reading, this.writing, this.incoming := reading, writing, incoming;
    }

    ghost predicate Valid()
      reads this
    {
      buf.Length == MAX_API_MSG && encPos <= MAX_BODY
    }

    /** One `read` of at most `room` bytes, which go to `dst` at `at`. */
    method Read(dst: array<Byte>, at: nat, room: nat) returns (ret: int, interrupted: bool)
      requires at + room <= dst.Length
      modifies this`reading, this`incoming, dst
      ensures ret <= room && ret <= |old(incoming)|
      ensures ret > 0 ==> incoming == old(incoming)[ret..] && dst[at..at + ret] == old(incoming)[..ret]
      ensures ret <= 0 ==> incoming == old(incoming)
      ensures forall i :: 0 <= i < dst.Length && (i < at || i >= at + ret) ==> dst[i] == old(dst[i])
      ensures old(reading) != [] ==>
        && reading == old(reading)[1..] && ret == Min(old(reading)[0].ret, Min(room, |old(incoming)|))
        && interrupted == old(reading)[0].interrupted
      ensures old(reading) == [] ==> reading == [] && ret == -1 && !interrupted
    {
      if reading == [] { return -1, false; }
      ret, interrupted := reading[0].ret, reading[0].interrupted;
      reading := reading[1..];
      if ret > room { ret := room; }
      if ret > |incoming| { ret := |incoming|; }
      if ret > 0 {
        forall i | 0 <= i < ret { dst[at + i] := incoming[i]; }
        incoming := incoming[ret..];
      }
    }

    /** `readall`: true once `len` bytes stand in `dst` from `at` on. */
    method ReadAll(dst: array<Byte>, at: nat, len: nat) returns (ok: bool)
      requires at + len <= dst.Length
      modifies this`reading, this`incoming, dst
      ensures ok ==> len <= |old(incoming)| && incoming == old(incoming)[len..] && dst[at..at + len] == old(incoming)[..len]
      ensures forall i :: 0 <= i < at ==> dst[i] == old(dst[i])
      ensures ok <==> len <= |old(incoming)| && Moves(old(reading), len)
    {
      var got := 0;
      while got < len
        invariant got <= len && got <= |old(incoming)|
        invariant incoming == old(incoming)[got..]
        invariant forall i :: 0 <= i < got ==> dst[at + i] == old(incoming)[i]
        invariant forall i :: 0 <= i < at ==> dst[i] == old(dst[i])
        invariant len <= |old(incoming)| ==> (Moves(old(reading), len) <==> Moves(reading, len - got))
        decreases |reading|
      {
        ghost var before := incoming;
        var n, interrupted := Read(dst, at + got, len - got);
        if n <= 0 {
          if interrupted { continue; }
          return false;
        }
        forall i | got <= i < got + n ensures dst[at + i] == old(incoming)[i] {
          assert dst[at + i] == dst[at + got..at + got + n][i - got];
        }
        got := got + n;
      }
      return true;
    }

    /**
     `handle_handshake`, for a daemon of that version. The greeting is answered before its version is
     looked at, so a client of another version can tell why it is refused.
     */
    method HandleHandshake(version: nat) returns (ok: bool)
      requires version < 0x1_0000
      modifies this`reading, this`writing, this`incoming, this`outgoing, this`totalRcvd, this`totalSent
      ensures ok ==>
        && |old(incoming)| >= 4 && incoming == old(incoming)[4..] && outgoing == old(outgoing) + Hello(version)
        && MessageType(old(incoming)[..4]) == OPEN && Version(old(incoming)[..4]) == version
        && totalRcvd == old(totalRcvd) + 4 && totalSent == old(totalSent) + 4
      ensures !ok && outgoing == old(outgoing) + Hello(version) ==>
        |old(incoming)| >= 4 && VersionMismatch(old(incoming)[..4], version)
      ensures old(outgoing) <= outgoing <= old(outgoing) + Hello(version)
      ensures |old(incoming)| >= 4 && MessageType(old(incoming)[..4]) != OPEN ==> !ok && outgoing == old(outgoing)
      // an open word that arrives is answered, if the kernel lets it, and then its version decides
      ensures |old(incoming)| >= 4 && Moves(old(reading), 4) && MessageType(old(incoming)[..4]) == OPEN && Moves(old(writing), 4) ==>
        && outgoing == old(outgoing) + Hello(version)
        && (ok <==> Version(old(incoming)[..4]) == version)
    {
      var word := new Byte[4](_ => 0);
      ok := ReadAll(word, 0, 4);
      if !ok { return; }
      totalRcvd := totalRcvd + 4;
      var hello := word[..];
      assert hello == word[0..0 + 4] == old(incoming)[..4];
      if MessageType(hello) != OPEN { return false; }
      var mine := Hello(version);
      forall i | 0 <= i < 4 { word[i] := mine[i]; }
      assert word[..4] == mine;
      ok := WriteAll(word, 4);
      if !ok { return; }
      totalSent := totalSent + 4;
      ok := Version(hello) == version;
    }

    /** The five-byte header, in the one read it must arrive in. */
    method ReadHeader() returns (ok: bool, kind: Byte, len: nat)
      requires Valid()
      modifies this`reading, this`incoming, this`totalRcvd, this`closed, buf
      ensures ok ==>
        && |old(incoming)| >= 5 && incoming == old(incoming)[5..]
        && kind == RequestKind(old(incoming)) && len == RequestLength(old(incoming))
        && totalRcvd == old(totalRcvd) + 5 && closed == old(closed)
      ensures !ok ==> closed
      ensures ok <==> old(reading) != [] && old(reading)[0].ret >= 5 && |old(incoming)| >= 5
      ensures ok ==> reading == old(reading)[1..]
    {
      kind, len := 0, 0;
      var n, interrupted := Read(buf, 3, 5);
      if n <= 0 {
        closed := true;
        return false, kind, len;
      }
      totalRcvd := totalRcvd + n;
      if n < 5 {
        closed := true;
        return false, kind, len;
      }
      assert buf[3..8] == old(incoming)[..5];
      assert buf[4..8] == buf[3..8][1..] == old(incoming)[1..5];
      return true, buf[3], WordValue(buf[4..8]);
    }

    /**
     The start of a turn of `run`: the five-byte header in one read, then the rest of the body. A
     request is read exactly when its whole frame has come off the stream, and nothing behind it.
     */
    method ReadRequest() returns (r: Incoming)
      requires Valid()
      requires |incoming| >= 5 ==> RequestLength(incoming) <= MAX_BODY
      modifies this, buf
      ensures Valid() && buf == old(buf) && outgoing == old(outgoing) && totalSent == old(totalSent) && writing == old(writing)
      ensures r.Got? ==>
        && FramableRequest(r.request) && old(incoming) == RequestFrame(r.request) + incoming
        && |r.request.body| <= MAX_BODY && buf[8..8 + |r.request.body|] == r.request.body && encPos == 0 && closed == old(closed)
        && totalRcvd == old(totalRcvd) + 5 + |r.request.body|
      ensures r.NoRequest? ==> closed
      // its header must come in one read, and its body in as many as it takes
      ensures r.Got? <==>
        && old(reading) != [] && old(reading)[0].ret >= 5 && |old(incoming)| >= 5
        && 5 + RequestLength(old(incoming)) <= |old(incoming)|
        && Moves(old(reading)[1..], RequestLength(old(incoming)))
    {
      encPos := 0;
      var ok, kind, len := ReadHeader();
      if !ok { return NoRequest; }
      ok := ReadAll(buf, 8, len);
      if !ok {
        closed := true;
        return NoRequest;
      }
      totalRcvd := totalRcvd + len;
      r := Got(Request(kind, buf[8..8 + len]));
      FrameTaken(old(incoming), len);
    }

    /** One `write` of `src` from `lo` to `hi`. */
    method Write(src: array<Byte>, lo: nat, hi: nat) returns (ret: int, interrupted: bool)
      requires lo < hi <= src.Length
      modifies this`writing, this`outgoing
      ensures ret <= hi - lo
      ensures outgoing == old(outgoing) + (if ret > 0 then src[lo..lo + ret] else [])
      ensures old(writing) != [] ==>
        && writing == old(writing)[1..] && ret == Min(old(writing)[0].ret, hi - lo)
        && interrupted == old(writing)[0].interrupted
      ensures old(writing) == [] ==> writing == [] && ret == -1 && !interrupted
    {
      if writing == [] { return -1, false; }
      ret, interrupted := writing[0].ret, writing[0].interrupted;
      writing := writing[1..];
      if ret > hi - lo { ret := hi - lo; }
      if ret > 0 {
        outgoing := outgoing + src[lo..lo + ret];
      }
    }

    /** `writeall`. */
    method WriteAll(src: array<Byte>, hi: nat) returns (ok: bool)
      requires 0 < hi <= src.Length
      modifies this`writing, this`outgoing
      ensures ok ==> outgoing == old(outgoing) + src[..hi]
      ensures !ok ==> old(outgoing) <= outgoing < old(outgoing) + src[..hi]
      ensures ok <==> Moves(old(writing), hi)
    {
      var put := 0;
      ghost var frame := src[..hi];
      while put < hi
        invariant put <= hi && outgoing == old(outgoing) + frame[..put]
        invariant Moves(old(writing), hi) <==> Moves(writing, hi - put)
        decreases |writing|
      {
        var n, interrupted := Write(src, put, hi);
        if n <= 0 {
          if interrupted { continue; }
          assert frame == frame[..put] + frame[put..];
          return false;
        }
        assert frame[..put] + src[put..put + n] == frame[..put + n];
        put := put + n;
      }
      assert frame[..hi] == frame;
      return true;
    }

    /** `send_response`: status and length go before what the handler encoded, as one frame. */
    method SendResponse(status: nat) returns (ok: bool)
      requires Valid() && status < WORD
      modifies this, buf
      ensures Valid() && buf == old(buf) && encPos == old(encPos)
      ensures incoming == old(incoming) && totalRcvd == old(totalRcvd) && reading == old(reading)
      ensures ok ==>
        && outgoing == old(outgoing) + ReplyFrame(Reply(status, old(buf[8..8 + encPos])))
        && totalSent == old(totalSent) + 8 + encPos && closed == old(closed)
      ensures ok <==> Moves(old(writing), 8 + encPos)
      ensures !ok ==>
        && old(outgoing) <= outgoing < old(outgoing) + ReplyFrame(Reply(status, old(buf[8..8 + encPos])))
        && closed && totalSent == old(totalSent)
    {
      ghost var body := buf[8..8 + encPos];
      var header := Word(status) + Word(encPos);
      forall i | 0 <= i < 8 { buf[i] := header[i]; }
      assert buf[..8 + encPos] == ReplyFrame(Reply(status, body)) by {
        assert buf[..8] == header;
        assert buf[8..8 + encPos] == body;
        assert buf[..8 + encPos] == buf[..8] + buf[8..8 + encPos];
      }
      ok := WriteAll(buf, 8 + encPos);
      if !ok {
        closed := true;
        return;
      }
      totalSent := totalSent + 8 + encPos;
    }

    /**
     What `handle_begin_poll` does once the socket has woken it. The cancel is parsed by hand, its
     type and its length in separate reads, and answered at once; the poll's own answer follows.
     The status of the first answer is ignored. -1 ends the session without an answer.
     */
    method WokenBySocket() returns (ret: int)
      requires Valid() && encPos == 0 && !closed
      modifies this, buf
      ensures Valid() && buf == old(buf) && encPos == 0
      ensures ret == SUCCESS || ret == ECOMM || ret == -1
      // exactly an empty cancel frame is taken off the stream, and one empty SUCCESS answers it
      ensures ret == SUCCESS ==>
        && old(incoming) == RequestFrame(Request(CANCEL_POLL, [])) + incoming
        && totalRcvd == old(totalRcvd) + 5
        && (closed <==> !Moves(old(writing), 8))
        && (!closed ==> totalSent == old(totalSent) + 8
                        && outgoing == old(outgoing) + ReplyFrame(Reply(SUCCESS, [])))
      ensures ret != SUCCESS ==> outgoing == old(outgoing) && totalRcvd == old(totalRcvd) && !closed
      // it is taken whenever it is there and the two reads get it; anything else at the front is an error
      ensures ret == SUCCESS <==>
        && |old(reading)| >= 2 && old(reading)[0].ret >= 1 && old(reading)[1].ret >= 4
        && |old(incoming)| >= 5 && RequestKind(old(incoming)) == CANCEL_POLL && RequestLength(old(incoming)) == 0
      ensures ret == -1 <==> old(reading) != [] && Min(old(reading)[0].ret, |old(incoming)|) == 0
    {
      var local := new Byte[4](_ => 0);
      var n, interrupted := Read(local, 0, 1);
      if n == 0 { return -1; }
      if n < 0 { return ECOMM; }
      assert local[0..1][0] == old(incoming)[..1][0];
      if local[0] != CANCEL_POLL { return ECOMM; }
      n, interrupted := Read(local, 0, 4);
      if n != 4 { return ECOMM; }
      assert local[0..4] == old(incoming)[1..][..4] == old(incoming)[1..5];
      if WordValue(local[..4]) != 0 { return ECOMM; }
      totalRcvd := totalRcvd + 5;
      FrameTaken(old(incoming), 0);
      assert old(incoming)[5..][..0] == [];
      assert buf[8..8 + encPos] == [];
      var _ := SendResponse(SUCCESS);
      return SUCCESS;
    }

    /**
     Turn after turn of reading, of what has arrived of the requests `sent`. Whatever the pattern of
     short reads, the requests decoded are the first of those sent, one for one; and reading stops
     early only by closing.
     */
    method ReadRequests(n: nat, ghost sent: seq<Request>, ghost coming: seq<Byte>) returns (got: seq<Request>)
      requires Valid() && !closed
      requires forall q :: q in sent ==> |q.body| <= MAX_BODY
      requires RequestBytes(sent) == incoming + coming
      modifies this, buf
      ensures Valid() && |got| <= n && (|got| < n <==> closed)
      ensures got <= sent
      ensures !closed ==> incoming + coming == RequestBytes(sent[|got|..])
                          && totalRcvd + |incoming| == old(totalRcvd) + |old(incoming)|
    {
      got := [];
      while |got| < n
        invariant Valid() && buf == old(buf) && !closed && |got| <= n
        invariant |got| <= |sent| && got == sent[..|got|]
        invariant incoming + coming == RequestBytes(sent[|got|..])
        invariant totalRcvd + |incoming| == old(totalRcvd) + |old(incoming)|
      {
        ghost var next := sent[|got|..];
        NextArrives(next, incoming, coming);
        var r := ReadRequest();
        if r.NoRequest? { return; }
        NextRead(next, r.request, incoming, coming);
        assert next[0] == sent[|got|] && next[1..] == sent[|got| + 1..];
        assert sent[..|got| + 1] == sent[..|got|] + [sent[|got|]];
        got := got + [r.request];
      }
    }
  }

  /**
   The two halves of the handshake against each other, each reading what the other wrote. Both go on
   if and only if the versions are equal; otherwise the client knows why and the daemon refuses.
   */
  method Handshake(client: Handle, mine: nat, server: Session, yours: nat) returns (g: Greeting, ok: bool)
    requires client.Valid() && client.totalSent == client.totalRcvd == 0 && mine < 0x1_0000 && yours < 0x1_0000
    requires client.outgoing == [] && server.outgoing == [] && server.incoming == Hello(mine)
    requires Moves(server.reading, 4) && Moves(server.writing, 4) && client.writing != [] && client.reading != []
    requires client.writing[0].ret >= 4 && client.reading[0].ret >= 4
    modifies client, server
    ensures client.outgoing == old(server.incoming) && server.outgoing == Hello(yours)
    ensures g.Agreed? <==> mine == yours
    ensures ok <==> mine == yours
    ensures mine != yours ==> g.OtherVersion?
  {
    HelloSays(mine);
    HelloSays(yours);
    assert Hello(mine)[..4] == Hello(mine) && Hello(yours)[..4] == Hello(yours);
    ok := server.HandleHandshake(yours);
    client.incoming := server.outgoing;
    g := client.Greet(mine);
  }

  /** A header that has arrived is the header of the next request. */
  lemma NextArrives(next: seq<Request>, incoming: seq<Byte>, coming: seq<Byte>)
    requires forall q :: q in next ==> |q.body| <= MAX_BODY
    requires incoming + coming == RequestBytes(next)
    ensures |incoming| >= 5 ==> RequestLength(incoming) <= MAX_BODY
  {
    if |incoming| >= 5 {
      RequestFrameParses(next[0], RequestBytes(next[1..]));
      assert incoming[1..5] == (incoming + coming)[1..5];
    }
  }

  /** A request that has been read is that request, and the rest of the stream is that of the others. */
  lemma NextRead(next: seq<Request>, r: Request, incoming: seq<Byte>, coming: seq<Byte>)
    requires (forall q :: q in next ==> |q.body| <= MAX_BODY) && FramableRequest(r)
    requires (RequestFrame(r) + incoming) + coming == RequestBytes(next)
    ensures next != [] && r == next[0] && incoming + coming == RequestBytes(next[1..])
  {
    assert (RequestFrame(r) + incoming) + coming == RequestFrame(r) + (incoming + coming);
    assert RequestBytes([r]) == RequestFrame(r) + RequestBytes([]) == RequestFrame(r);
    RequestsPrefix(next, [r], incoming + coming);
  }

  /** Header and body together are the frame at the front of the stream. */
  lemma FrameTaken(s: seq<Byte>, len: nat)
    requires |s| >= 5 + len && len == RequestLength(s)
    ensures len < WORD && s == RequestFrame(Request(s[0], s[5..][..len])) + s[5..][len..]
  {
    WordOfValue(s[1..5]);
    assert s == s[..1] + s[1..5] + s[5..][..len] + s[5..][len..];
  }

  /** Two lists of requests with the same bytes are the same list. */
  lemma RequestsDetermined(a: seq<Request>, b: seq<Request>)
    requires (forall q :: q in a ==> FramableRequest(q)) && (forall q :: q in b ==> FramableRequest(q))
    requires RequestBytes(a) == RequestBytes(b)
    ensures a == b
  {
    assert RequestBytes(b) == RequestBytes(b) + [];
    RequestsPrefix(a, b, []);
    RequestsPrefix(b, a, []);
  }

  lemma RepliesDetermined(a: seq<Reply>, b: seq<Reply>)
    requires (forall p :: p in a ==> FramableReply(p)) && (forall p :: p in b ==> FramableReply(p))
    requires ReplyBytes(a) == ReplyBytes(b)
    ensures a == b
  {
    assert ReplyBytes(b) == ReplyBytes(b) + [];
    RepliesPrefix(a, b, []);
    RepliesPrefix(b, a, []);
  }
}
