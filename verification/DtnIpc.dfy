/**
 The client's end of the application IPC channel (applib/dtn_ipc.c) and the calls of
 applib/dtn_api.c that share its `in_poll` flag.

 The kernel is two scripts: what each coming `write` and `read` will return. A script that has
 run out fails every further call, so every loop here ends; a script is otherwise arbitrary,
 including short writes, short reads, interrupted calls and failures.
 */
module DtnIpc {
  import opened Bytes
  import opened ClientView
  import opened Collections
  import opened IpcDefs

  /** What a system call returns, and whether `errno` is EINTR when it returns nothing. */
  datatype Io = Io(ret: int, interrupted: bool)

  /** No scripted call is interrupted or fails. */
  predicate Smooth(script: seq<Io>) {
    forall io :: io in script ==> io.ret > 0
  }

  /** Calls that are retried when interrupted move `n` bytes, of as many as it takes, before one fails. */
  predicate Moves(script: seq<Io>, n: nat) {
    n == 0
    || (script != []
        && if script[0].ret > 0 then Moves(script[1..], if script[0].ret < n then n - script[0].ret else 0)
           else script[0].interrupted && Moves(script[1..], n))
  }

  /** What is left of the script after that. */
  function Unused(script: seq<Io>, n: nat): (r: seq<Io>)
    requires Moves(script, n)
  {
    if n == 0 then script
    else if script[0].ret > 0 then Unused(script[1..], if script[0].ret < n then n - script[0].ret else 0)
    else Unused(script[1..], n)
  }

  /** These reads take a whole reply off this stream: its header in one, its body in as many as it takes. */
  predicate Delivers(reading: seq<Io>, incoming: seq<Byte>) {
    && reading != [] && reading[0].ret >= 8 && |incoming| >= 8
    && var len := ReplyLength(incoming);
    len <= MAX_BODY && 8 + len <= |incoming| && Moves(reading[1..], len)
  }

  /** A request with `n` bytes of body goes out whole and a whole reply comes in. */
  predicate Carries(writing: seq<Io>, n: nat, reading: seq<Io>, incoming: seq<Byte>) {
    Moves(writing, 5 + n) && Delivers(reading, incoming)
  }

  /** A call whose request does not fit needs no connection; any other needs it to carry both ways. */
  predicate Survives(writing: seq<Io>, held: nat, args: nat, reading: seq<Io>, incoming: seq<Byte>) {
    held + args > MAX_BODY || Carries(writing, held + args, reading, incoming)
  }

  /** The reads left once a reply is taken off `incoming`. */
  function NextReads(reading: seq<Io>, incoming: seq<Byte>): (r: seq<Io>)
    requires Delivers(reading, incoming)
  {
    Unused(reading[1..], ReplyLength(incoming))
  }

  /** The descriptors a close of `fd` hands back to the kernel. */
  function Released(fd: int): (r: seq<int>) {
    if fd > 0 then [fd] else []
  }

  /** How the exchange of greetings can end. */
  datatype Greeting = NotSent | NotOpen | OtherVersion | Agreed

  class Handle {
    var sock: int
    var err: int
    var inPoll: bool
    var buf: array<Byte>
    var encPos: nat          // position of the XDR encoder, counted from buf[8]
    var totalSent: int
    var totalRcvd: int

    // the kernel's side of the socket
    var writing: seq<Io>
    var reading: seq<Io>
    var outgoing: seq<Byte>
    var incoming: seq<Byte>
    var closed: seq<int>

    // how many requests were sent whole, and how many replies were read
    ghost var requests: nat
    ghost var replies: nat

    ghost predicate Valid()
      reads this
    {
      buf.Length == MAX_API_MSG && encPos <= MAX_BODY
    }

    /** What the encoder holds. */
    ghost function Body(): (r: seq<Byte>)
      requires Valid()
      reads this, buf
    {
      buf[8..8 + encPos]
    }

    /** The handle as the protocol has it. */
    ghost function Seen(): (v: View)
      requires Valid()
      reads this, buf
    {
      View(inPoll, Body(), incoming, outgoing, requests, replies)
    }

    /** The body of the reply at the front of `stream` stands in the buffer. */
    ghost predicate HoldsReply(stream: seq<Byte>)
      requires Valid() && |stream| >= 8
      reads this, buf
    {
      var len := ReplyLength(stream);
      len <= MAX_BODY && 8 + len <= |stream| && buf[8..8 + len] == stream[8..8 + len]
    }

    method SysWrite(data: seq<Byte>) returns (ret: int, interrupted: bool)
      requires data != []
      modifies this`writing, this`outgoing
      ensures ret <= |data|
      ensures outgoing == old(outgoing) + (if ret > 0 then data[..ret] else [])
      ensures old(writing) != [] ==>
        && writing == old(writing)[1..] && ret == Min(old(writing)[0].ret, |data|)
        && interrupted == old(writing)[0].interrupted
      ensures old(writing) == [] ==> writing == [] && ret == -1 && !interrupted
    {
      if writing == [] {
        return -1, false;
      }
      ret, interrupted := writing[0].ret, writing[0].interrupted;
      writing := writing[1..];
      if ret > |data| {
        ret := |data|;
      }
      if ret > 0 {
        outgoing := outgoing + data[..ret];
      }
    }

    method SysRead(room: nat) returns (ret: int, data: seq<Byte>, interrupted: bool)
      modifies this`reading, this`incoming
      ensures ret <= room && ret <= |old(incoming)|
      ensures ret > 0 ==> data == old(incoming)[..ret] && incoming == old(incoming)[ret..]
      ensures ret <= 0 ==> data == [] && incoming == old(incoming)
      ensures old(reading) != [] ==>
        && reading == old(reading)[1..] && ret == Min(old(reading)[0].ret, Min(room, |old(incoming)|))
        && interrupted == old(reading)[0].interrupted
      ensures old(reading) == [] ==> reading == [] && ret == -1 && !interrupted
    {
      if reading == [] {
        return -1, [], false;
      }
      ret, interrupted := reading[0].ret, reading[0].interrupted;
      reading := reading[1..];
      if ret > room { ret := room; }
      if ret > |incoming| { ret := |incoming|; }
      if ret > 0 {
        data, incoming := incoming[..ret], incoming[ret..];
      } else {
        data := [];
      }
    }

    /** Copies `data` into the message buffer. */
    method Store(at: nat, data: seq<Byte>)
      requires Valid() && at + |data| <= buf.Length
      modifies buf
      ensures buf[..at] == old(buf[..at])
      ensures buf[at..at + |data|] == data
      ensures buf[at + |data|..] == old(buf[at + |data|..])
      ensures forall i :: 0 <= i < buf.Length ==> buf[i] == if at <= i < at + |data| then data[i - at] else old(buf[i])
    {
      forall i | 0 <= i < |data| { buf[at + i] := data[i]; }
    }

    /** Puts the type code and the length in the five bytes before the body. */
    method PackHeader(kind: Byte)
      requires Valid()
      modifies buf
      ensures buf[3..8 + encPos] == RequestFrame(Request(kind, old(Body())))
    {
      Store(3, [kind] + Word(encPos));
      assert buf[8..8 + encPos] == buf[8..][..encPos] == old(buf[8..])[..encPos] == old(Body());
      assert buf[3..8 + encPos] == buf[3..8] + buf[8..8 + encPos];
    }

    /** The loop of `dtnipc_send`: true once every byte of buf[lo..hi] is written. */
    method WriteAll(lo: nat, hi: nat) returns (ok: bool)
      requires Valid() && lo < hi <= buf.Length
      modifies this`writing, this`outgoing, this`totalSent
      ensures ok ==> outgoing == old(outgoing) + buf[lo..hi]
      ensures !ok ==> old(outgoing) <= outgoing < old(outgoing) + buf[lo..hi]
      ensures ok <==> Moves(old(writing), hi - lo)
      ensures ok && Smooth(old(writing)) ==> totalSent == old(totalSent) + hi - lo
    {
      var bp, msglen := lo, hi - lo;
      ghost var frame := buf[lo..hi];
      while msglen > 0
        invariant lo <= bp <= hi && msglen == hi - bp
        invariant Moves(old(writing), hi - lo) <==> Moves(writing, msglen)
        invariant outgoing == old(outgoing) + frame[..bp - lo]
        invariant Smooth(old(writing)) ==> Smooth(writing) && totalSent == old(totalSent) + bp - lo
        decreases |writing|
      {
        var n, interrupted := SysWrite(buf[bp..bp + msglen]);
        totalSent := totalSent + n;
        if n <= 0 {
          if interrupted { continue; }
          assert frame == frame[..bp - lo] + frame[bp - lo..];
          return false;
        }
        assert buf[bp..bp + msglen] == frame[bp - lo..];
        TakeMore(frame, bp - lo, n);
        bp, msglen := bp + n, msglen - n;
      }
      assert frame[..hi - lo] == frame;
      return true;
    }

    /** The single read that must return the status word and the length word together. */
    method ReadHeader() returns (n: int)
      requires Valid()
      modifies this`reading, this`incoming, this`totalRcvd, buf
      ensures n == 8 <==> old(reading) != [] && old(reading)[0].ret >= 8 && |old(incoming)| >= 8
      ensures n == 8 ==>
        && reading == old(reading)[1..] && incoming == old(incoming)[8..]
        && buf[..4] == old(incoming)[..4] && buf[4..8] == old(incoming)[4..8]
        && buf[8..] == old(buf[8..])
        && totalRcvd == old(totalRcvd) + 8
        && (Smooth(old(reading)) ==> Smooth(reading))
    {
      var data, interrupted;
      n, data, interrupted := SysRead(8);
      Store(0, data);
      totalRcvd := totalRcvd + n;
      if n == 8 {
        assert buf[0..8] == old(incoming)[..8];
        assert buf[..4] == buf[0..8][..4] && buf[4..8] == buf[0..8][4..8];
      }
    }

    /** The first `k` bytes of `stream` stand over `was`, behind the header. */
    ghost predicate Filled(was: seq<Byte>, stream: seq<Byte>, k: nat)
      requires Valid()
      reads this, buf
    {
      && k <= |stream| && k <= |was| == MAX_BODY
      && forall i :: 8 <= i < buf.Length ==> buf[i] == if i < 8 + k then stream[i - 8] else was[i - 8]
    }

    /** One read of the body, behind what has been read of it. */
    method ReadMore(at: nat, ghost was: seq<Byte>, ghost stream: seq<Byte>) returns (n: int, interrupted: bool)
      requires Valid() && at >= 8 && Filled(was, stream, at - 8) && incoming == stream[at - 8..]
      modifies this`reading, this`incoming, this`totalRcvd, buf
      ensures totalRcvd == old(totalRcvd) + n
      ensures var k := at - 8 + (if n > 0 then n else 0);
              Filled(was, stream, k) && incoming == stream[k..]
      ensures old(reading) != [] ==>
        && reading == old(reading)[1..] && interrupted == old(reading)[0].interrupted
        && n == Min(old(reading)[0].ret, Min(buf.Length - at, |old(incoming)|))
      ensures old(reading) == [] ==> reading == [] && n == -1 && !interrupted
    {
      var data;
      n, data, interrupted := SysRead(buf.Length - at);
      Store(at, data);
      totalRcvd := totalRcvd + n;
    }

    /**
     The loop of `dtnipc_recv`: true once `len` bytes of body follow the header in the buffer. All
     that was read stands there, and nothing else behind the header has changed.
     */
    method ReadBody(len: nat) returns (ok: bool)
      requires Valid()
      modifies this`reading, this`incoming, this`totalRcvd, buf
      ensures ok <==> len <= MAX_BODY && len <= |old(incoming)| && Moves(old(reading), len)
      ensures ok ==>
        && reading == Unused(old(reading), len)
        && |old(incoming)| - MAX_BODY <= |incoming| <= |old(incoming)| - len
        && incoming == old(incoming)[|old(incoming)| - |incoming|..]
        && (len == 0 ==> incoming == old(incoming))
        && buf[8..] == Laid(old(buf[8..]), old(incoming)[..|old(incoming)| - |incoming|])
      ensures ok && Smooth(old(reading)) ==> totalRcvd + |incoming| == old(totalRcvd) + |old(incoming)|
    {
      var nread := 8;
      ghost var was, stream := buf[8..], incoming;
      while nread < len + 8
        invariant nread >= 8 && Filled(was, stream, nread - 8) && incoming == stream[nread - 8..]
        invariant len == 0 ==> nread == 8
        invariant len <= MAX_BODY && len <= |stream| ==> SameFate(old(reading), len, reading, Min(nread - 8, len))
        invariant Smooth(old(reading)) ==> Smooth(reading) && totalRcvd == old(totalRcvd) + nread - 8
        decreases |reading|
      {
        var n, interrupted := ReadMore(nread, was, stream);
        if n <= 0 {
          if interrupted { continue; }
          return false;
        }
        nread := nread + n;
      }
      return true;
    }

    /** All the reads of `dtnipc_recv`. */
    method ReadReply() returns (ok: bool, len: nat, status: nat)
      requires Valid()
      modifies this`reading, this`incoming, this`totalRcvd, buf
      ensures Valid()
      ensures ok <==> Delivers(old(reading), old(incoming))
      ensures ok ==>
        && reading == NextReads(old(reading), old(incoming))
        && Received(old(incoming), incoming)
        && status == ReplyStatus(old(incoming)) && len == ReplyLength(old(incoming))
        && buf[8..8 + len] == old(incoming)[8..8 + len]
        && Body() == Overlaid(old(Body()), old(incoming), incoming)
      ensures ok && Smooth(old(reading)) ==> totalRcvd + |incoming| == old(totalRcvd) + |old(incoming)|
    {
      ghost var was, stream := buf[8..], incoming;
      len, status := 0, 0;
      var n := ReadHeader();
      if n != 8 { return false, len, status; }
      status, len := WordValue(buf[..4]), WordValue(buf[4..8]);
      ok := ReadBody(len);
      if ok {
        ReplyTaken(was, buf[8..], encPos, stream, incoming);
        assert Body() == buf[8..][..encPos] && old(Body()) == was[..encPos];
        assert buf[8..8 + len] == buf[8..][..len];
      }
    }

    /**
     `depth` counts the activations of `Close` on the stack, this one included. A close entered
     from within a close finds `err` already set to ECOMM and goes no further.
     */
    method Close(ghost depth: nat) returns (ret: int)
      requires Valid()
      requires depth <= 1 || (depth == 2 && err == ECOMM)
      modifies this, buf
      ensures Valid() && buf == old(buf)
      ensures sock == 0
      ensures closed == old(closed) + Released(old(sock))
      ensures ret == 0 || ret == -1
      ensures old(err) == ECOMM ==>
        && ret == -1 && err == ECOMM && outgoing == old(outgoing) && incoming == old(incoming)
        && totalSent == old(totalSent) && totalRcvd == old(totalRcvd) && encPos == old(encPos)
        && writing == old(writing) && reading == old(reading)
        && requests == old(requests) && replies == old(replies)
      ensures inPoll == old(inPoll)
      // a close goes out first, unless the connection is known to be gone
      ensures old(err) != ECOMM && Moves(old(writing), 5 + old(encPos)) ==>
        outgoing == old(outgoing) + RequestFrame(Request(CLOSE, old(Body())))
      ensures old(err) != ECOMM ==>
        if !Carries(old(writing), old(encPos), old(reading), old(incoming)) then ret == -1 && err == ECOMM
        else if ReplyStatus(old(incoming)) == SUCCESS then ret == 0 && err == old(err)
        else ret == -1 && err == ReplyStatus(old(incoming))
      decreases if err == ECOMM then 0 else 3
    {
      if err != ECOMM {
        ret := SendRecv(CLOSE, depth);
      } else {
        ret := -1;
      }
      if sock > 0 {
        closed := closed + [sock];
      }
      sock := 0;
    }

    /** Sends what the encoder holds as one frame and rewinds the encoder. */
    method Send(kind: Byte, ghost depth: nat) returns (ret: int)
      requires Valid() && depth <= 1
      modifies this, buf
      ensures Valid() && buf == old(buf) && encPos == 0
      ensures ret == if Moves(old(writing), 5 + old(encPos)) then 0 else -1
      ensures inPoll == old(inPoll) && incoming == old(incoming) && totalRcvd == old(totalRcvd)
      ensures reading == old(reading) && replies == old(replies)
      ensures ret == 0 ==>
        && outgoing == old(outgoing) + RequestFrame(Request(kind, old(Body())))
        && sock == old(sock) && err == old(err) && closed == old(closed)
        && requests == old(requests) + 1
      ensures ret == 0 && Smooth(old(writing)) ==> totalSent == old(totalSent) + 5 + old(encPos)
      ensures ret == -1 ==>
        && old(outgoing) <= outgoing < old(outgoing) + RequestFrame(Request(kind, old(Body())))
        && sock == 0 && err == ECOMM && closed == old(closed) + Released(old(sock))
        && requests == old(requests)
      decreases 1
    {
      var msglen := encPos + 5;
      PackHeader(kind);
      encPos := 0;
      var ok := WriteAll(3, 3 + msglen);
      if !ok {
        err := ECOMM;
        var _ := Close(depth + 1);
        return -1;
      }
      requests := requests + 1;
      return 0;
    }

    /** Reads one reply: eight bytes of header in one read, then the body in as many as it takes. */
    method Recv(ghost depth: nat) returns (ret: int, status: int)
      requires Valid() && depth <= 1
      modifies this, buf
      ensures Valid() && buf == old(buf) && encPos == old(encPos)
      ensures ret == if Delivers(old(reading), old(incoming)) then ReplyLength(old(incoming)) else -1
      ensures inPoll == old(inPoll) && outgoing == old(outgoing) && totalSent == old(totalSent)
      ensures writing == old(writing) && requests == old(requests)
      ensures ret >= 0 ==>
        && |old(incoming)| >= 8 + ret
        && ret <= MAX_BODY
        && status == ReplyStatus(old(incoming)) && reading == NextReads(old(reading), old(incoming))
        && buf[8..8 + ret] == old(incoming)[8..8 + ret]
        && sock == old(sock) && err == old(err) && closed == old(closed)
        && replies == old(replies) + 1
        // everything read is gone from the stream, including what follows the frame
        && Received(old(incoming), incoming)
        && Body() == Overlaid(old(Body()), old(incoming), incoming)
      ensures ret >= 0 && Smooth(old(reading)) ==> totalRcvd + |incoming| == old(totalRcvd) + |old(incoming)|
      ensures ret == -1 ==>
        sock == 0 && err == ECOMM && closed == old(closed) + Released(old(sock)) && replies == old(replies)
      decreases 1
    {
      var ok, len;
      ok, len, status := ReadReply();
      if !ok {
        err := ECOMM;
        var _ := Close(depth + 1);
        return -1, status;
      }
      replies := replies + 1;
      return len, status;
    }

    method SendRecv(kind: Byte, ghost depth: nat) returns (ret: int)
      requires Valid() && depth <= 1
      modifies this, buf
      ensures Valid() && buf == old(buf)
      ensures ret == 0 || ret == -1
      ensures inPoll == old(inPoll) && encPos == 0
      ensures Moves(old(writing), 5 + old(encPos)) ==>
        outgoing == old(outgoing) + RequestFrame(Request(kind, old(Body())))
      // the connection was dropped and released, or it is as it was
      ensures !Carries(old(writing), old(encPos), old(reading), old(incoming)) ==>
        sock == 0 && err == ECOMM && closed == old(closed) + Released(old(sock)) && ret == -1
      ensures Carries(old(writing), old(encPos), old(reading), old(incoming)) ==>
        && sock == old(sock) && closed == old(closed)
            && Received(old(incoming), incoming) && reading == NextReads(old(reading), old(incoming))
            && Seen() == Replied(Flushed(old(Seen()), kind), incoming)
            && HoldsReply(old(incoming))
            && (ret == 0 <==> ReplyStatus(old(incoming)) == SUCCESS)
            && err == (if ret == 0 then old(err) else ReplyStatus(old(incoming)))
      decreases 2
    {
      ret := Send(kind, depth);
      if ret < 0 { return -1; }
      var n, status := Recv(depth);
      if n < 0 { return -1; }
      if status != SUCCESS {
        err := status;
        return -1;
      }
      return 0;
    }

    /** Both greetings, each in one system call, for a client of that version. */
    method Greet(version: nat) returns (g: Greeting)
      requires Valid() && totalSent == totalRcvd == 0 && version < 0x1_0000
      modifies this`writing, this`reading, this`outgoing, this`incoming, this`totalSent, this`totalRcvd
      ensures g == Greeted(old(writing), old(reading), old(incoming), version)
      ensures !g.NotSent? ==> outgoing == old(outgoing) + Hello(version)
      ensures g.Agreed? ==> totalSent == totalRcvd == 4 && incoming == old(incoming)[4..]
    {
      var n, interrupted := SysWrite(Hello(version));
      if n != 4 { return NotSent; }
      totalSent := totalSent + n;
      var answer;
      n, answer, interrupted := SysRead(4);
      if n != 4 || MessageType(answer) != OPEN { return NotOpen; }
      totalRcvd := totalRcvd + n;
      return if Version(answer) != version then OtherVersion else Agreed;
    }

    /**
     `dtnipc_open` once the kernel has handed out descriptor `fd` and tried to connect it. It succeeds
     exactly when the greetings match; whatever its own closing exchange does, a mismatch of versions
     is reported as one, and any other failure as ECOMM.
     */
    method Open(fd: int, connected: bool) returns (ret: int)
      requires buf.Length == MAX_API_MSG
      modifies this, buf
      ensures Valid() && buf == old(buf)
      ensures ret == 0 || ret == -1
      ensures var g := Greeted(old(writing), old(reading), old(incoming), IPC_VERSION);
              && (ret == 0 <==> fd >= 0 && connected && g.Agreed?)
              && err == (if ret == 0 then SUCCESS else if fd >= 0 && connected && g.OtherVersion? then EVERSION else ECOMM)
      ensures ret == 0 ==>
        && sock == fd && !inPoll && encPos == 0 && closed == old(closed)
        && totalSent == totalRcvd == 4 && requests == replies == 0
        && outgoing == old(outgoing) + Hello(IPC_VERSION) && incoming == old(incoming)[4..]
      ensures ret == -1 ==> sock == 0 && closed == old(closed) + Released(fd)
    {
      Reset(fd);
      if sock < 0 || !connected {
        err := ECOMM;
        var _ := Close(1);
        return -1;
      }
      var greeting := Greet(IPC_VERSION);
      ret := Settle(greeting);
    }

    /** The handle as `memset` and the encoder's creation leave it. */
    method Reset(fd: int)
      requires buf.Length == MAX_API_MSG
      modifies this`sock, this`err, this`inPoll, this`encPos, this`totalSent, this`totalRcvd, this`requests, this`replies
      ensures Valid() && sock == fd && err == SUCCESS && !inPoll && encPos == 0
      ensures totalSent == totalRcvd == 0 && requests == replies == 0
    {
      sock, err, inPoll, encPos, totalSent, totalRcvd, requests, replies := fd, SUCCESS, false, 0, 0, 0, 0, 0;
    }

    /** What becomes of the handle after the greetings. */
    method Settle(greeting: Greeting) returns (ret: int)
      requires Valid() && err == SUCCESS
      modifies this, buf
      ensures Valid() && buf == old(buf)
      ensures greeting.Agreed? ==>
        && ret == 0 && sock == old(sock) && err == SUCCESS && inPoll == old(inPoll) && encPos == old(encPos)
        && closed == old(closed)
        && totalSent == old(totalSent) && totalRcvd == old(totalRcvd)
        && requests == old(requests) && replies == old(replies)
        && outgoing == old(outgoing) && incoming == old(incoming)
      ensures !greeting.Agreed? ==>
        && ret == -1 && sock == 0 && closed == old(closed) + Released(old(sock))
        && err == (if greeting.OtherVersion? then EVERSION else ECOMM)
    {
      match greeting {
        case NotSent =>
          err := ECOMM;
          var _ := Close(1);
          return -1;
        case NotOpen =>
          var _ := Close(1);
          err := ECOMM;
          return -1;
        case OtherVersion =>
          var _ := Close(1);
          err := EVERSION;
          return -1;
        case Agreed =>
          return 0;
      }
    }

    // -------------------------------------------------------------- calls of dtn_api.c

    /** The connection is still up: no descriptor was released since `closed` had this value. */
    ghost predicate Up(before: seq<int>)
      reads this
    {
      closed == before
    }

    /** Requests sent minus replies read agrees with `in_poll`. */
    ghost predicate InStep()
      reads this
    {
      requests - replies == if inPoll then 1 else 0
    }

    /** One XDR routine that has room. */
    method Append(data: seq<Byte>)
      requires Valid() && encPos + |data| <= MAX_BODY
      modifies this`encPos, buf
      ensures Valid() && encPos == old(encPos) + |data| && Body() == old(Body()) + data
    {
      ghost var had := Body();
      var end := 8 + encPos;
      Store(end, data);
      assert buf[8..end] == buf[..end][8..] == had;
      assert buf[8..end + |data|] == buf[8..end] + buf[end..end + |data|];
      encPos := encPos + |data|;
    }

    /** Runs the XDR routines of a request; each chunk is one primitive item. */
    method Pack(chunks: seq<seq<Byte>>) returns (ok: bool)
      requires Valid()
      modifies this`encPos, buf
      ensures Valid()
      ensures ok <==> old(encPos) + |Concat(chunks)| <= MAX_BODY
      ensures ok ==> Body() == old(Body()) + Concat(chunks)
      // the items before the first that does not fit stay in the encoder
      ensures Packed(MAX_BODY - old(encPos), chunks) <= |Concat(chunks)|
      ensures Body() == old(Body()) + Concat(chunks)[..Packed(MAX_BODY - old(encPos), chunks)]
    {
      ghost var before, room, args := Body(), MAX_BODY - encPos, Concat(chunks);
      ghost var n: nat := 0;
      PackedAll(room, chunks);
      var i := 0;
      assert chunks[0..] == chunks;
      while i < |chunks|
        invariant Valid() && buf == old(buf)
        invariant PackedSoFar(room, chunks, i, n) && encPos == |before| + n
        invariant Body() == before + args[..n]
      {
        PackOneMore(room, chunks, i, n);
        if encPos + |chunks[i]| > MAX_BODY {
          return false;
        }
        Append(chunks[i]);
        n, i := n + |chunks[i]|, i + 1;
      }
      return true;
    }

    /** A call that packs a request, sends it and waits for its reply. */
    method PlainCall(kind: Byte, chunks: seq<seq<Byte>>) returns (ret: int)
      requires Valid()
      modifies this, buf
      ensures Valid() && inPoll == old(inPoll)
      ensures old(inPoll) ==> ret == -1 && err == EINPOLL && outgoing == old(outgoing)
      ensures old(sock) > 0 ==>
        (Up(old(closed)) <==> old(inPoll) || Survives(old(writing), old(encPos), |Concat(chunks)|, old(reading), old(incoming)))
      ensures old(sock) > 0 && Up(old(closed)) ==> PlainOutcome(old(Seen()), kind, chunks, Seen())
      ensures old(sock) > 0 && Up(old(closed)) && !old(inPoll) ==>
        if old(encPos) + |Concat(chunks)| > MAX_BODY then ret == -1 && err == EXDR
        else if ReplyStatus(old(incoming)) == SUCCESS then ret == 0
        else ret == -1 && err == ReplyStatus(old(incoming))
      ensures old(sock) > 0 && Up(old(closed)) ==> requests - replies == old(requests - replies)
      // on success exactly this request went out, and the reply to decode is the next on the stream
      ensures ret == 0 && old(sock) > 0 ==>
        && Up(old(closed)) && requests == old(requests) + 1
        && old(encPos) + |Concat(chunks)| <= MAX_BODY
        && outgoing == old(outgoing) + RequestFrame(Request(kind, old(Body()) + Concat(chunks)))
        && |old(incoming)| >= 8 && ReplyStatus(old(incoming)) == SUCCESS && HoldsReply(old(incoming))
    {
      if inPoll {
        err := EINPOLL;
        return -1;
      }
      ret := Ask(kind, chunks);
    }

    /** Packs a request, sends it and waits for its reply. */
    method Ask(kind: Byte, chunks: seq<seq<Byte>>) returns (ret: int)
      requires Valid() && !inPoll
      modifies this, buf
      ensures Valid() && buf == old(buf) && !inPoll
      ensures ret == 0 || ret == -1
      ensures !Survives(old(writing), old(encPos), |Concat(chunks)|, old(reading), old(incoming)) ==>
        sock == 0 && err == ECOMM && closed == old(closed) + Released(old(sock)) && ret == -1
      ensures Survives(old(writing), old(encPos), |Concat(chunks)|, old(reading), old(incoming)) ==>
        && sock == old(sock) && closed == old(closed) && PlainOutcome(old(Seen()), kind, chunks, Seen())
        && if old(encPos) + |Concat(chunks)| > MAX_BODY then ret == -1 && err == EXDR
           else HoldsReply(old(incoming))
                && if ReplyStatus(old(incoming)) == SUCCESS then ret == 0 && err == old(err)
                   else ret == -1 && err == ReplyStatus(old(incoming))
    {
      var ok := Pack(chunks);
      if !ok {
        err := EXDR;
        return -1;
      }
      ret := SendRecv(kind, 0);
    }

    /** `dtn_begin_poll`: the flag is set before anything can fail. */
    method BeginPoll(timeout: nat) returns (ret: int)
      requires Valid() && timeout < WORD
      modifies this, buf
      ensures Valid() && inPoll
      ensures old(inPoll) ==> ret == -1 && err == EINPOLL && requests == old(requests) && replies == old(replies)
      ensures !old(inPoll) && Up(old(closed)) && old(sock) > 0 ==>
        && (old(encPos) + 4 <= MAX_BODY ==>
              && ret == sock && requests == old(requests) + 1
              && outgoing == old(outgoing) + RequestFrame(Request(BEGIN_POLL, old(Body()) + Word(timeout))))
        && (old(encPos) + 4 > MAX_BODY ==> ret == -1 && err == EXDR && requests == old(requests))
      ensures replies == old(replies) || !Up(old(closed))
      ensures old(sock) > 0 ==>
        (Up(old(closed)) <==> old(inPoll) || old(encPos) + 4 > MAX_BODY || Moves(old(writing), 5 + old(encPos) + 4))
      ensures old(sock) > 0 && Up(old(closed)) ==> BeginOutcome(old(Seen()), Word(timeout), Seen())
      // the exact condition under which the two sides stay in step
      ensures old(sock) > 0 && Up(old(closed)) && old(InStep()) ==>
        (InStep() <==> old(inPoll) || old(encPos) + 4 <= MAX_BODY)
    {
      if inPoll {
        err := EINPOLL;
        return -1;
      }
      inPoll := true;
      assert Concat([Word(timeout)]) == Word(timeout) + Concat([Word(timeout)][1..]) == Word(timeout);
      var ok := Pack([Word(timeout)]);
      if !ok {
        err := EXDR;
        return -1;
      }
      var n := Send(BEGIN_POLL, 0);
      if n < 0 { return -1; }
      return sock;
    }

    /**
     `dtn_cancel_poll`. `SendRecv` returns 0 or -1 and never a status, so the comparison with
     ETIMEOUT in the source never holds and `err` ends as -1, not as the status received. `first` is
     what is left to read after the first reply.
     */
    method CancelPoll() returns (ret: int, ghost first: seq<Byte>)
      requires Valid()
      modifies this, buf
      ensures Valid() && !inPoll
      ensures !old(inPoll) ==> ret == -1 && err == EINVAL && Seen() == old(Seen())
      ensures old(sock) > 0 && old(inPoll) ==>
        (Up(old(closed)) <==>
          && Carries(old(writing), old(encPos), old(reading), old(incoming))
          && (ReplyStatus(old(incoming)) == SUCCESS ==> Delivers(NextReads(old(reading), old(incoming)), first)))
      ensures old(sock) > 0 && Up(old(closed)) ==> CancelOutcome(old(Seen()), first, Seen())
      ensures old(inPoll) && old(sock) > 0 && Up(old(closed)) && ReplyStatus(old(incoming)) != SUCCESS ==>
        ret == -1 && err == -1
      ensures old(inPoll) && old(sock) > 0 && Up(old(closed)) && ReplyStatus(old(incoming)) == SUCCESS ==>
        && ret == (if ReplyLength(first) == 0 && ReplyStatus(first) == SUCCESS then 0 else -1)
        && (ReplyLength(first) == 0 ==> err == ReplyStatus(first))
      // the exact condition under which the two sides stay in step
      ensures old(sock) > 0 && Up(old(closed)) && old(InStep()) ==>
        (InStep() <==> !old(inPoll) || ReplyStatus(old(incoming)) == SUCCESS)
      ensures ret == 0 ==> old(inPoll)
    {
      first := incoming;
      if !inPoll {
        err := EINVAL;
        return -1, first;
      }
      var pollStatus := AskCancel();
      first := incoming;
      if pollStatus != SUCCESS {
        err := pollStatus;
        return -1, first;
      }
      ret := CollectCancel();
    }

    /** The cancel and the first of its two replies. */
    method AskCancel() returns (ret: int)
      requires Valid() && inPoll
      modifies this, buf
      ensures Valid() && buf == old(buf) && !inPoll && encPos == 0
      ensures ret == 0 || ret == -1
      ensures !Carries(old(writing), old(encPos), old(reading), old(incoming)) ==>
        sock == 0 && closed == old(closed) + Released(old(sock)) && ret == -1
      ensures Carries(old(writing), old(encPos), old(reading), old(incoming)) ==>
        && sock == old(sock) && closed == old(closed) && Received(old(incoming), incoming)
        && Seen() == Replied(Flushed(old(Seen()), CANCEL_POLL), incoming).(inPoll := false)
        && reading == NextReads(old(reading), old(incoming))
        && (ret == 0 <==> ReplyStatus(old(incoming)) == SUCCESS)
    {
      inPoll := false;
      ret := SendRecv(CANCEL_POLL, 0);
    }

    /** The second. */
    method CollectCancel() returns (ret: int)
      requires Valid() && encPos == 0
      modifies this, buf
      ensures Valid() && buf == old(buf) && inPoll == old(inPoll)
      ensures ret == 0 || ret == -1
      ensures !Delivers(old(reading), old(incoming)) ==>
        sock == 0 && closed == old(closed) + Released(old(sock)) && ret == -1
      ensures Delivers(old(reading), old(incoming)) ==>
        && sock == old(sock) && closed == old(closed)
        && Received(old(incoming), incoming) && Seen() == Replied(old(Seen()), incoming)
        && ret == (if CanGoOn(old(incoming)) then 0 else -1)
        && (ReplyLength(old(incoming)) == 0 ==> err == ReplyStatus(old(incoming)))
    {
      var n, cancelStatus := Recv(0);
      if n != 0 { return -1; }
      err := cancelStatus;
      return if cancelStatus != SUCCESS then -1 else 0;
    }

    /** How the receiving calls begin while a poll is outstanding: only an empty SUCCESS lets them go on. */
    method CollectPoll() returns (ok: bool)
      requires Valid() && inPoll
      modifies this, buf
      ensures Valid() && buf == old(buf) && !inPoll
      ensures !Delivers(old(reading), old(incoming)) ==> sock == 0 && closed == old(closed) + Released(old(sock)) && !ok
      ensures Delivers(old(reading), old(incoming)) ==>
        && sock == old(sock) && closed == old(closed) && writing == old(writing) && encPos == old(encPos)
        && Received(old(incoming), incoming) && Seen() == AfterPoll(old(Seen()), incoming)
        && reading == NextReads(old(reading), old(incoming))
        && (ok <==> CanGoOn(old(incoming)))
        && (ReplyLength(old(incoming)) == 0 && !ok ==> err == ReplyStatus(old(incoming)))
    {
      inPoll := false;
      var n, pollStatus := Recv(0);
      if n != 0 { return false; }
      if pollStatus != SUCCESS {
        err := pollStatus;
        return false;
      }
      return true;
    }

    /**
     `dtn_recv`, `dtn_peek` and `dtn_session_update`: collect a pending poll, then call. `first` is
     what is left to read once the poll's reply is collected.
     */
    method ReceivingCall(kind: Byte, chunks: seq<seq<Byte>>) returns (ret: int, ghost first: seq<Byte>)
      requires Valid()
      modifies this, buf
      ensures Valid() && !inPoll
      ensures old(sock) > 0 && Up(old(closed)) ==>
        requests - replies == old(requests - replies) - (if old(inPoll) then 1 else 0)
      ensures old(sock) > 0 && Up(old(closed)) && old(InStep()) ==> InStep()
      ensures old(sock) > 0 && old(inPoll) ==>
        (Up(old(closed)) <==>
          && Delivers(old(reading), old(incoming))
          && (ReplyLength(old(incoming)) == 0 && ReplyStatus(old(incoming)) == SUCCESS ==>
                Survives(old(writing), old(encPos), |Concat(chunks)|,
                         NextReads(old(reading), old(incoming)), first)))
      ensures old(sock) > 0 && !old(inPoll) ==>
        && first == old(incoming)
        && (Up(old(closed)) <==> Survives(old(writing), old(encPos), |Concat(chunks)|, old(reading), old(incoming)))
      ensures old(sock) > 0 && Up(old(closed)) ==>
        if old(inPoll) && ReplyLength(old(incoming)) != 0 then ret == -1
        else if old(inPoll) && ReplyStatus(old(incoming)) != SUCCESS then ret == -1 && err == ReplyStatus(old(incoming))
        else if old(encPos) + |Concat(chunks)| > MAX_BODY then ret == -1 && err == EXDR
        else |first| >= 8 && if ReplyStatus(first) == SUCCESS then ret == 0 else ret == -1 && err == ReplyStatus(first)
      ensures old(sock) > 0 && Up(old(closed)) ==> ReceivingOutcome(old(Seen()), kind, chunks, first, Seen())
      ensures ret == 0 && old(sock) > 0 ==> Up(old(closed)) && requests == old(requests) + 1
    {
      if inPoll {
        var collected := CollectPoll();
        if !collected { return -1, incoming; }
      }
      first := incoming;
      ret := Ask(kind, chunks);
    }
  }

  /** After `done` of `n` bytes, `now` is left of a script that either moves them all or does not. */
  predicate SameFate(script: seq<Io>, n: nat, now: seq<Io>, done: int) {
    && 0 <= done <= n
    && (Moves(script, n) <==> Moves(now, n - done))
    && (Moves(script, n) ==> Unused(script, n) == Unused(now, n - done))
  }

  lemma TakeMore(s: seq<Byte>, i: nat, n: nat)
    requires i + n <= |s|
    ensures s[..i] + s[i..][..n] == s[..i + n]
  {
  }

  /** The word each side opens with: a message type above a version number. */
  function Hello(version: nat): (r: seq<Byte>)
    requires version < 0x1_0000
    ensures |r| == 4
  {
    Word(OPEN * 0x1_0000 + version)
  }

  function MessageType(handshake: seq<Byte>): (t: nat)
    requires |handshake| == 4
  {
    WordValue(handshake) / 0x1_0000
  }

  function Version(handshake: seq<Byte>): (v: nat)
    requires |handshake| == 4
  {
    WordValue(handshake) % 0x1_0000
  }

  /** The other side speaks this protocol, in another version. */
  predicate VersionMismatch(handshake: seq<Byte>, version: nat)
    requires |handshake| == 4
  {
    MessageType(handshake) == OPEN && Version(handshake) != version
  }

  /** What a client of that version makes of the server's word. */
  function Judge(handshake: seq<Byte>, version: nat): (g: Greeting)
    requires |handshake| == 4
  {
    if MessageType(handshake) != OPEN then NotOpen else if Version(handshake) != version then OtherVersion else Agreed
  }

  /** How the client's half of the handshake ends: both system calls must move the whole word. */
  function Greeted(writing: seq<Io>, reading: seq<Io>, incoming: seq<Byte>, version: nat): (g: Greeting)
    ensures !g.NotSent? && !g.NotOpen? ==> |incoming| >= 4 && g == Judge(incoming[..4], version)
  {
    if writing == [] || writing[0].ret < 4 then NotSent
    else if reading == [] || reading[0].ret < 4 || |incoming| < 4 then NotOpen
    else Judge(incoming[..4], version)
  }

  /** A greeting says who sent it. */
  lemma HelloSays(version: nat)
    requires version < 0x1_0000
    ensures MessageType(Hello(version)) == OPEN && Version(Hello(version)) == version
    ensures var hi: int, lo: int := Hello(version)[2], Hello(version)[3];
            Hello(version)[..2] == [0, OPEN] && hi * 0x100 + lo == version
  {
    WordRoundTrip(OPEN * 0x1_0000 + version);
  }
}
