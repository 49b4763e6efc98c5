/**
 What the two sides of the protocol say to each other over a run: the requests sent and those the
 server decoded, the replies sent and those the client decoded, bodies included.
 */
module PollHistory {
  import opened Bytes
  import opened IpcDefs
  import opened PollProtocol
  import opened PollRuns

  /**
   `asked` and `decoded` are the client's requests and the replies it has read to the end; `served`
   and `replied` are the requests the server has taken and its answers. `data` is the part of the
   current reply's body that stands in the client's buffer. `taken` is auxiliary: the answers whose
   header the client has read.
   */
  datatype History = History(
    asked: seq<Request>, served: seq<Request>, replied: seq<Answer>, taken: seq<Answer>,
    decoded: seq<Reply>, data: seq<Byte>)

  const NOTHING: History := History([], [], [], [], [], [])

  // ---------------------------------------------------------------- what one step adds

  function Ask(h: History, q: Request): History {
    h.(asked := h.asked + [q])
  }

  function AskIfPacked(h: History, s: System, k: Byte, enc: Encoding): History {
    if enc.Encoded? then Ask(h, Request(k, s.residue + enc.args)) else h
  }

  /** The request at the front of the stream, as the server reads it. */
  function Front(c2s: seq<Byte>): Request
    requires |c2s| >= 5 && |c2s| >= 5 + RequestLength(c2s)
  {
    Request(RequestKind(c2s), c2s[5..5 + RequestLength(c2s)])
  }

  function Take(h: History, s: System): History
    requires RequestAvailable(s)
  {
    h.(served := h.served + [Front(s.c2s)])
  }

  function Answered(h: History, k: Byte, p: Reply): History {
    h.(replied := h.replied + [Answer(k, p)])
  }

  function ServeNote(h: History, s: System, status: nat, body: seq<Byte>): History
    requires Enabled(s, Serve(status, body))
  {
    var k := RequestKind(s.c2s);
    if k == CLOSE then Take(h, s)
    else if !PlainKind(k) && !PollKind(k) then Answered(Take(h, s), k, Reply(EMSGTYPE, []))
    else Answered(Take(h, s), k, Reply(status, body))
  }

  /** A reply has been read to its end; a poll's prologue may go on to ask. */
  function FinishNote(h: History, s: System, call: Call, status: nat, body: seq<Byte>, enc: Encoding): History {
    var h' := h.(decoded := h.decoded + [Reply(status, body)], data := []);
    if GoesOn(call, status, |body|, enc) then AskIfPacked(h', s, call.next, enc) else h'
  }

  function HeaderNote(h: History, s: System, enc: Encoding): History
    requires Enabled(s, ReadHeader(enc))
  {
    var h' := h.(taken := h.taken + (if s.answers == [] then [] else [s.answers[0]]), data := []);
    if ReplyLength(s.s2c) == 0 then FinishNote(h', s, s.client.call, ReplyStatus(s.s2c), [], enc) else h'
  }

  /** The client decodes the first `len` bytes after the header, whatever else it has read. */
  function BodyNote(h: History, s: System, n: nat, enc: Encoding): History
    requires Enabled(s, ReadBody(n, enc))
  {
    var data := h.data + s.s2c[..n];
    if s.client.got + n < s.client.len || |data| < s.client.len then h.(data := data)
    else FinishNote(h, s, s.client.call, s.client.status, data[..s.client.len], enc)
  }

  function Note(h: History, s: System, e: Event): History
    requires Enabled(s, e)
  {
    match e
    case Rejected => h
    case CallPlain(k, enc) => AskIfPacked(h, s, k, enc)
    case BeginPoll(timeout) => if HasRoom(s, 4) then Ask(h, Request(BEGIN_POLL, s.residue + timeout)) else h
    case CancelPoll => Ask(h, Request(CANCEL_POLL, s.residue))
    case CallInPoll(_) => h
    case ReadHeader(enc) => HeaderNote(h, s, enc)
    case ReadBody(n, enc) => BodyNote(h, s, n, enc)
    case Serve(status, body) => ServeNote(h, s, status, body)
    case Block => Take(h, s)
    case Wake(status, body) => Answered(h, BusyKind(s.server), Reply(status, body))
    case SocketReady =>
      if CancelWaiting(s) then
        Answered(Answered(Take(h, s), BEGIN_POLL, Reply(SUCCESS, [])), CANCEL_POLL, Reply(SUCCESS, []))
      else h
    case Shutdown => h
  }

  /** The history of a run. */
  function Notes(h: History, s: System, es: seq<Event>): History
    requires IsRun(s, es)
    decreases |es|
  {
    if es == [] then h else Notes(Note(h, s, es[0]), Step(s, es[0]), es[1..])
  }

  // ---------------------------------------------------------------- what a history keeps

  function BusyWith(v: Server): seq<Byte> {
    if v.Idle? then [] else [BusyKind(v)]
  }

  /** Every request is served or in flight, in order. */
  predicate Asking(h: History, s: System) {
    h.asked == h.served + s.reqs && |h.asked| == s.sent
  }

  /** Every request served has been answered in its turn, but for the one a handler is blocked on. */
  predicate Answering(h: History, s: System) {
    AnswerKinds(h.replied) + BusyWith(s.server) == RequestKinds(h.served)
  }

  /** Every answer is in flight or its header has been read. */
  predicate Taking(h: History, s: System) {
    h.replied == h.taken + s.answers
  }

  /** The stream still holds the rest of the current body. */
  predicate RestThere(s: System) {
    s.client.AwaitBody? ==> s.client.got <= s.client.len && s.client.len - s.client.got <= |s.s2c|
  }

  /** The reply being read: what of its body is in the buffer and what is still on the stream. */
  function Current(h: History, s: System): seq<Reply>
    requires RestThere(s)
  {
    if s.client.AwaitBody? then [Reply(s.client.status, h.data + s.s2c[..s.client.len - s.client.got])] else []
  }

  /** Every reply whose header has been read is decoded, or is the one being read. */
  predicate Decoding(h: History, s: System) {
    && RestThere(s)
    && Replies(h.taken) == h.decoded + Current(h, s)
    && (s.client.AwaitBody? ==> |h.data| == s.client.got)
  }

  predicate Recorded(h: History, s: System) {
    && Asking(h, s)
    && (s.open ==> Answering(h, s))
    && Taking(h, s)
    && |h.decoded| == s.read
    && (s.overReads == 0 ==> Decoding(h, s))
  }

  lemma FrontIsFirst(s: System)
    requires Basic(s) && |s.c2s| > 0
    ensures s.reqs != [] && RequestAvailable(s) && Front(s.c2s) == s.reqs[0]
  {
    FrontRequest(s);
    RequestFrameParses(s.reqs[0], RequestBytes(s.reqs[1..]));
  }

  lemma RequestKindsSnoc(qs: seq<Request>, q: Request)
    ensures RequestKinds(qs + [q]) == RequestKinds(qs) + [q.kind]
  {
  }

  lemma AnswerKindsSnoc(a: seq<Answer>, x: Answer)
    ensures AnswerKinds(a + [x]) == AnswerKinds(a) + [x.kind]
  {
  }

  lemma RepliesSnoc(a: seq<Answer>, x: Answer)
    ensures Replies(a + [x]) == Replies(a) + [x.reply]
  {
  }

  /** Nothing but the request lists changes when the client sends. */
  lemma AskRecorded(h: History, s: System, q: Request, c: Client, p: bool)
    requires Recorded(h, s) && FramableRequest(q) && !s.client.AwaitBody? && !c.AwaitBody?
    ensures Recorded(Ask(h, q), Transmit(s, q).(client := c, inPoll := p))
  {
    assert (h.served + s.reqs) + [q] == h.served + (s.reqs + [q]);
  }

  lemma QuietRecorded(h: History, s: System, t: System)
    requires Recorded(h, s)
    requires t.reqs == s.reqs && t.answers == s.answers && t.server == s.server && t.s2c == s.s2c
    requires t.sent == s.sent && t.read == s.read && t.overReads == s.overReads && (t.open ==> s.open)
    requires t.client == s.client || (!t.client.AwaitBody? && !s.client.AwaitBody?)
    ensures Recorded(h, t)
  {
  }

  lemma CallRecorded(h: History, s: System, k: Byte, enc: Encoding)
    requires Recorded(h, s) && Enabled(s, CallPlain(k, enc))
    ensures Recorded(AskIfPacked(h, s, k, enc), Dispatch(s, k, enc))
  {
    if enc.Encoded? {
      AskRecorded(h, s, Request(k, s.residue + enc.args), AwaitHeader(Plain(k)), s.inPoll);
    } else {
      QuietRecorded(h, s, Dispatch(s, k, enc));
    }
  }

  lemma PollRecorded(h: History, s: System, e: Event)
    requires Recorded(h, s) && Enabled(s, e) && (e.BeginPoll? || e.CancelPoll?)
    ensures Recorded(Note(h, s, e), Step(s, e))
  {
    if e.CancelPoll? {
      AskRecorded(h, s, Request(CANCEL_POLL, s.residue), AwaitHeader(CancelFirst), false);
    } else if HasRoom(s, 4) {
      AskRecorded(h, s, Request(BEGIN_POLL, s.residue + e.timeout), s.client, true);
    } else {
      QuietRecorded(h, s, Step(s, e));
    }
  }

  // ---------------------------------------------------------------- the server's steps

  /** A request leaves the stream and the handler is blocked on it, or about to answer. */
  lemma TakeRecorded(h: History, s: System)
    requires Basic(s) && Recorded(h, s) && s.open && s.server.Idle? && |s.c2s| > 0
    ensures RequestAvailable(s) && s.reqs != [] && RequestKind(s.c2s) == s.reqs[0].kind
    ensures var g, t := Take(h, s), TakeRequest(s);
            && Asking(g, t) && Taking(g, t) && |g.decoded| == t.read && (s.overReads == 0 ==> Decoding(g, t))
            && RequestKinds(g.served) == AnswerKinds(g.replied) + [s.reqs[0].kind]
  {
    FrontIsFirst(s);
    assert s.reqs == [s.reqs[0]] + s.reqs[1..];
    assert h.served + s.reqs == (h.served + [s.reqs[0]]) + s.reqs[1..];
    RequestKindsSnoc(h.served, s.reqs[0]);
  }

  /** An answer is sent: it goes behind those in flight. */
  lemma RespondRecorded(h: History, s: System, k: Byte, p: Reply)
    requires Asking(h, s) && Taking(h, s) && |h.decoded| == s.read && (s.overReads == 0 ==> Decoding(h, s))
    requires FramableReply(p) && RequestKinds(h.served) == AnswerKinds(h.replied) + [k]
    ensures Recorded(Answered(h, k, p), Respond(s, k, p))
  {
    AnswerKindsSnoc(h.replied, Answer(k, p));
    assert AnswerKinds(h.replied + [Answer(k, p)]) + [] == AnswerKinds(h.replied + [Answer(k, p)]);
    assert (h.taken + s.answers) + [Answer(k, p)] == h.taken + (s.answers + [Answer(k, p)]);
    if s.overReads == 0 { RespondDecoding(h, s, k, p); }
  }

  lemma RespondDecoding(h: History, s: System, k: Byte, p: Reply)
    requires Decoding(h, s) && FramableReply(p)
    ensures Decoding(Answered(h, k, p), Respond(s, k, p))
  {
    if s.client.AwaitBody? {
      var left := s.client.len - s.client.got;
      assert (s.s2c + ReplyFrame(p))[..left] == s.s2c[..left];
    }
  }

  lemma ServeRecorded(h: History, s: System, status: nat, body: seq<Byte>)
    requires Basic(s) && Recorded(h, s) && Enabled(s, Serve(status, body))
    ensures Recorded(ServeNote(h, s, status, body), ServeStep(s, status, body))
  {
    TakeRecorded(h, s);
    assert s.reqs[0] in s.reqs;
    RespondRecorded(Take(h, s), TakeRequest(s), s.reqs[0].kind, Reply(status, body));
  }

  lemma BlockRecorded(h: History, s: System)
    requires Basic(s) && Recorded(h, s) && Enabled(s, Block)
    ensures Recorded(Take(h, s), BlockStep(s))
  {
    TakeRecorded(h, s);
  }

  lemma WakeRecorded(h: History, s: System, status: nat, body: seq<Byte>)
    requires Recorded(h, s) && Enabled(s, Wake(status, body))
    ensures Recorded(Note(h, s, Wake(status, body)), Step(s, Wake(status, body)))
  {
    RespondRecorded(h, s, BusyKind(s.server), Reply(status, body));
  }

  /** Taking a request and answering an earlier one touch different streams. */
  lemma TakeRespondCommute(h: History, s: System, k: Byte, p: Reply)
    requires FramableReply(p) && RequestAvailable(s)
    ensures TakeRequest(Respond(s, k, p)) == Respond(TakeRequest(s), k, p)
    ensures Take(Answered(h, k, p), Respond(s, k, p)) == Answered(Take(h, s), k, p)
  {
  }

  /** The cancel is taken while the poll is still unanswered; then both are answered. */
  lemma CancelRecorded(h: History, s: System)
    requires Basic(s) && Recorded(h, s) && Enabled(s, SocketReady) && CancelWaiting(s)
    ensures Recorded(Note(h, s, SocketReady), CancelInPoll(s))
  {
    var ok := Reply(SUCCESS, []);
    RespondRecorded(h, s, BEGIN_POLL, ok);
    RespondBasic(s, BEGIN_POLL);
    TakeRespondCommute(h, s, BEGIN_POLL, ok);
    SecondAnswer(Answered(h, BEGIN_POLL, ok), Respond(s, BEGIN_POLL, ok));
  }

  lemma SecondAnswer(h: History, s: System)
    requires Basic(s) && Recorded(h, s) && s.open && s.server.Idle? && |s.c2s| > 0
    ensures RequestAvailable(s) && Recorded(Answered(Take(h, s), RequestKind(s.c2s), Reply(SUCCESS, [])),
                                            Respond(TakeRequest(s), RequestKind(s.c2s), Reply(SUCCESS, [])))
  {
    TakeRecorded(h, s);
    RespondRecorded(Take(h, s), TakeRequest(s), s.reqs[0].kind, Reply(SUCCESS, []));
  }

  lemma RespondBasic(s: System, k: Byte)
    requires Basic(s)
    ensures Basic(Respond(s, k, Reply(SUCCESS, [])))
  {
    RespondKeeps(s, k, Reply(SUCCESS, []));
  }

  // ---------------------------------------------------------------- the client's reads

  /** The end of a reply: it is decoded, and the prologue of a receiving call may ask. */
  lemma FinishRecorded(h: History, s: System, call: Call, status: nat, body: seq<Byte>, enc: Encoding)
    requires Asking(h, s) && Answering(h, s) && Taking(h, s) && |h.decoded| == s.read && s.open
    requires s.overReads == 0 ==> Replies(h.taken) == h.decoded + [Reply(status, body)]
    requires Fits(s, enc)
    ensures Recorded(FinishNote(h, s, call, status, body, enc), Finish(s, call, status, |body|, enc))
  {
    var h' := h.(decoded := h.decoded + [Reply(status, body)], data := []);
    var s' := s.(read := s.read + 1, client := Ready);
    assert h'.decoded + [] == h'.decoded;
    assert Recorded(h', s');
    if GoesOn(call, status, |body|, enc) {
      AskRecorded(h', s', Request(call.next, s'.residue + enc.args), AwaitHeader(Plain(call.next)), s'.inPoll);
    } else {
      QuietRecorded(h', s', Finish(s, call, status, |body|, enc));
    }
  }

  lemma HeaderTakes(h: History, s: System)
    requires Basic(s) && Recorded(h, s) && s.client.AwaitHeader? && |s.s2c| >= 8 && s.overReads == 0
    ensures s.answers != []
    ensures var x := s.answers[0].reply;
            && x.status == ReplyStatus(s.s2c) && |x.body| == ReplyLength(s.s2c) <= |s.s2c[8..]|
            && s.s2c[8..][..|x.body|] == x.body
            && Replies(h.taken + [s.answers[0]]) == h.decoded + [x]
  {
    FrontAnswer(s);
    RepliesSnoc(h.taken, s.answers[0]);
    assert h.decoded + [] == h.decoded;
  }

  lemma HeaderTaking(h: History, s: System)
    requires Taking(h, s) && s.client.AwaitHeader? && |s.s2c| >= 8
    ensures Taking(h.(taken := h.taken + (if s.answers == [] then [] else [s.answers[0]]), data := []), TakeHeader(s))
  {
    if s.answers != [] {
      assert h.taken + s.answers == (h.taken + [s.answers[0]]) + s.answers[1..];
    }
  }

  lemma HeaderRecorded(h: History, s: System, enc: Encoding)
    requires Basic(s) && Recorded(h, s) && Enabled(s, ReadHeader(enc)) && s.overReads == 0
    ensures Recorded(HeaderNote(h, s, enc), HeaderStep(s, enc))
  {
    HeaderTakes(h, s);
    HeaderTaking(h, s);
    var h' := h.(taken := h.taken + [s.answers[0]], data := []);
    if ReplyLength(s.s2c) == 0 {
      assert s.answers[0].reply == Reply(ReplyStatus(s.s2c), []);
      FinishRecorded(h', TakeHeader(s), s.client.call, ReplyStatus(s.s2c), [], enc);
    } else {
      assert [] + s.s2c[8..][..ReplyLength(s.s2c)] == s.answers[0].reply.body;
    }
  }

  /** A read that ends inside the body moves bytes from the stream to the buffer. */
  lemma BytesMove(data: seq<Byte>, stream: seq<Byte>, n: nat, left: nat)
    requires n <= left <= |stream|
    ensures (data + stream[..n]) + stream[n..][..left - n] == data + stream[..left]
  {
    assert stream[..left] == stream[..n] + stream[n..][..left - n];
  }

  /** A read up to the end of the body or past it completes exactly that body. */
  lemma BytesComplete(data: seq<Byte>, stream: seq<Byte>, n: nat, left: nat)
    requires left <= n <= |stream|
    ensures (data + stream[..n])[..|data| + left] == data + stream[..left]
  {
    assert stream[..n][..left] == stream[..left];
  }

  lemma BodyRecorded(h: History, s: System, n: nat, enc: Encoding)
    requires Basic(s) && Recorded(h, s) && Enabled(s, ReadBody(n, enc)) && s.overReads == 0
    ensures Recorded(BodyNote(h, s, n, enc), BodyStep(s, n, enc))
  {
    var left := s.client.len - s.client.got;
    if n < left {
      BytesMove(h.data, s.s2c, n, left);
    } else {
      BytesComplete(h.data, s.s2c, n, left);
      var data := h.data + s.s2c[..n];
      FinishRecorded(h, TakeBody(s, n), s.client.call, s.client.status, data[..s.client.len], enc);
    }
  }

  lemma StepRecorded(h: History, s: System, e: Event)
    requires Basic(s) && Recorded(h, s) && Enabled(s, e) && s.overReads == 0
    ensures Recorded(Note(h, s, e), Step(s, e))
  {
    match e
    case CallPlain(k, enc) => CallRecorded(h, s, k, enc);
    case BeginPoll(_) => PollRecorded(h, s, e);
    case CancelPoll => PollRecorded(h, s, e);
    case ReadHeader(enc) => HeaderRecorded(h, s, enc);
    case ReadBody(n, enc) => BodyRecorded(h, s, n, enc);
    case Serve(status, body) => ServeRecorded(h, s, status, body);
    case Block => BlockRecorded(h, s);
    case Wake(status, body) => WakeRecorded(h, s, status, body);
    case SocketReady => if CancelWaiting(s) { CancelRecorded(h, s); } else { QuietRecorded(h, s, s.(open := false)); }
    case _ => QuietRecorded(h, s, Step(s, e));
  }

  lemma {:induction false} RunRecorded(h: History, s: System, es: seq<Event>)
    requires Basic(s) && Recorded(h, s) && IsRun(s, es) && After(s, es).overReads == 0
    ensures Recorded(Notes(h, s, es), After(s, es))
    decreases |es|
  {
    if es != [] {
      RunMonotone(s, es);
      StepBasic(s, es[0]);
      StepRecorded(h, s, es[0]);
      RunRecorded(Note(h, s, es[0]), Step(s, es[0]), es[1..]);
    }
  }

  lemma InitRecorded(s: System)
    requires Initial(s)
    ensures Basic(s) && Recorded(NOTHING, s)
  {
    InitHolds(s);
  }

  // ---------------------------------------------------------------- main results

  /** The n-th answer is to the n-th request. */
  predicate InTurn(replied: seq<Answer>, asked: seq<Request>) {
    |replied| <= |asked| && forall n :: 0 <= n < |replied| ==> replied[n].kind == asked[n].kind
  }

  /**
   Each side decodes exactly what the other sent, over every run in which no read has run past its
   frame: the requests served are the first of the requests sent, the replies decoded are the first
   of the replies sent, bodies included, and while the connection is open the n-th reply answers
   the n-th request.
   */
  lemma Delivered(s: System, es: seq<Event>)
    requires Initial(s) && IsRun(s, es) && After(s, es).overReads == 0
    ensures var h := Notes(NOTHING, s, es);
            && h.served <= h.asked
            && h.decoded <= Replies(h.replied)
            && (After(s, es).open ==> InTurn(h.replied, h.asked))
  {
    InitRecorded(s);
    RunRecorded(NOTHING, s, es);
    var h, t := Notes(NOTHING, s, es), After(s, es);
    DecodedPrefix(h, t);
    if t.open { AnsweredInTurn(h, t); }
  }

  lemma DecodedPrefix(h: History, t: System)
    requires Taking(h, t) && Decoding(h, t)
    ensures h.decoded <= Replies(h.replied)
  {
    assert Replies(h.taken + t.answers) == Replies(h.taken) + Replies(t.answers);
  }

  lemma AnsweredInTurn(h: History, t: System)
    requires Asking(h, t) && Answering(h, t)
    ensures InTurn(h.replied, h.asked)
  {
    assert |h.replied| == |AnswerKinds(h.replied)| <= |RequestKinds(h.served)|;
    forall n | 0 <= n < |h.replied| ensures h.replied[n].kind == h.asked[n].kind {
      assert AnswerKinds(h.replied)[n] == RequestKinds(h.served)[n];
    }
  }

  /**
   Every run without the two slips is such a run; and between calls, with no poll outstanding, all
   that was asked has been served, answered and decoded.
   */
  lemma DeliveredInStep(s: System, es: seq<Event>)
    requires Initial(s) && IsRun(s, es)
    requires After(s, es).badCancels == 0 && After(s, es).badPolls == 0
    ensures var h, t := Notes(NOTHING, s, es), After(s, es);
            && h.served <= h.asked && h.decoded <= Replies(h.replied)
            && (t.open ==> InTurn(h.replied, h.asked))
            && (t.open && t.client.Ready? && !t.inPoll ==>
                  h.served == h.asked && h.decoded == Replies(h.replied) && |h.replied| == |h.asked|)
  {
    Synchronised(s, es);
    Delivered(s, es);
    InitRecorded(s);
    RunRecorded(NOTHING, s, es);
    if After(s, es).open { AllDone(Notes(NOTHING, s, es), After(s, es)); }
  }

  lemma AllDone(h: History, t: System)
    requires Recorded(h, t) && t.overReads == 0 && t.open && Outstanding(t) == Expected(t)
    ensures t.client.Ready? && !t.inPoll ==>
              h.served == h.asked && h.decoded == Replies(h.replied) && |h.replied| == |h.asked|
  {
    if t.client.Ready? && !t.inPoll {
      assert |Outstanding(t)| == |t.answers| + |BusyWith(t.server)| + |t.reqs|;
      assert |AnswerKinds(h.replied)| == |RequestKinds(h.served)|;
      assert h.taken + [] == h.taken && h.decoded + [] == h.decoded;
    }
  }

  lemma {:induction false} NotesAppend(h: History, s: System, es: seq<Event>, e: Event)
    requires IsRun(s, es) && Enabled(After(s, es), e)
    ensures IsRun(s, es + [e]) && After(s, es + [e]) == Step(After(s, es), e)
    ensures Notes(h, s, es + [e]) == Note(Notes(h, s, es), After(s, es), e)
    decreases |es|
  {
    RunAppend(s, es, e);
    if es != [] {
      NotesAppend(Note(h, s, es[0]), Step(s, es[0]), es[1..], e);
      assert (es + [e])[1..] == es[1..] + [e];
    } else {
      assert (es + [e])[1..] == [];
      assert Notes(Note(h, s, e), Step(s, e), []) == Note(h, s, e);
    }
  }

  /** While a plain call waits, its request is the last one sent. */
  predicate LastIsCall(h: History, s: System) {
    !s.client.Ready? && s.client.call.Plain? ==>
      h.asked != [] && h.asked[|h.asked| - 1].kind == s.client.call.kind
  }

  lemma FinishLast(h: History, s: System, call: Call, status: nat, body: seq<Byte>, enc: Encoding)
    requires Fits(s, enc)
    ensures LastIsCall(FinishNote(h, s, call, status, body, enc), Finish(s, call, status, |body|, enc))
  {
  }

  lemma StepLast(h: History, s: System, e: Event)
    requires LastIsCall(h, s) && Enabled(s, e) && s.overReads == 0 && (s.client.AwaitBody? ==> |h.data| == s.client.got)
    ensures LastIsCall(Note(h, s, e), Step(s, e))
  {
    match e
    case ReadHeader(enc) =>
      if ReplyLength(s.s2c) == 0 {
        var h' := h.(taken := h.taken + (if s.answers == [] then [] else [s.answers[0]]), data := []);
        FinishLast(h', TakeHeader(s), s.client.call, ReplyStatus(s.s2c), [], enc);
      }
    case ReadBody(n, enc) =>
      if s.client.got + n >= s.client.len {
        FinishLast(h, TakeBody(s, n), s.client.call, s.client.status, (h.data + s.s2c[..n])[..s.client.len], enc);
      }
    case _ =>
  }

  lemma {:induction false} RunLast(h: History, s: System, es: seq<Event>)
    requires Basic(s) && Recorded(h, s) && LastIsCall(h, s) && IsRun(s, es) && After(s, es).overReads == 0
    ensures LastIsCall(Notes(h, s, es), After(s, es))
    decreases |es|
  {
    if es != [] {
      RunMonotone(s, es);
      StepBasic(s, es[0]);
      StepRecorded(h, s, es[0]);
      StepLast(h, s, es[0]);
      RunLast(Note(h, s, es[0]), Step(s, es[0]), es[1..]);
    }
  }

  /** The read that ends a plain call asks nothing, slips nowhere and leaves the connection up. */
  lemma PlainEnds(h: History, t: System, e: Event)
    requires Basic(t) && Enabled(t, e) && !e.Shutdown?
    requires !t.client.Ready? && t.client.call.Plain? && Step(t, e).client.Ready?
    ensures var u := Step(t, e);
            && u.open && !u.inPoll && u.badCancels == t.badCancels && u.badPolls == t.badPolls
            && Note(h, t, e).asked == h.asked
  {
    assert e.ReadHeader? || e.ReadBody?;
  }

  /** What holds between calls, with no poll outstanding. */
  lemma BetweenCalls(s: System, es: seq<Event>)
    requires Initial(s) && IsRun(s, es) && After(s, es).overReads == 0 && After(s, es).open
    requires After(s, es).client.Ready? && !After(s, es).inPoll
    ensures var h, t := Notes(NOTHING, s, es), After(s, es);
            && |h.asked| - |h.decoded| == t.badCancels - t.badPolls
            && h.decoded <= Replies(h.replied) && InTurn(h.replied, h.asked)
  {
    InitRecorded(s);
    RunRecorded(NOTHING, s, es);
    Delivered(s, es);
    Ledger(s, es);
  }

  /**
   What a plain call of kind `k` has got when it returns: the last reply decoded is the answer, body
   included, to the request `behind` places before the last one sent, which is the call's own.
   */
  predicate Got(h: History, k: Byte, behind: int) {
    var n := |h.decoded| - 1;
    && 0 <= n < |h.replied| <= |h.asked|
    && h.decoded[n] == h.replied[n].reply
    && h.replied[n].kind == h.asked[n].kind
    && h.asked[|h.asked| - 1].kind == k
    && n == |h.asked| - 1 - behind
  }

  lemma GotInTurn(h: History, k: Byte, behind: int)
    requires h.decoded != [] && h.decoded <= Replies(h.replied) && InTurn(h.replied, h.asked)
    requires |h.asked| - |h.decoded| == behind && h.asked != [] && h.asked[|h.asked| - 1].kind == k
    ensures Got(h, k, behind)
  {
    assert |h.decoded| <= |Replies(h.replied)| == |h.replied|;
    var n := |h.decoded| - 1;
    assert h.decoded[n] == Replies(h.replied)[n];
  }

  /** The state and the history once a plain call has returned. */
  lemma CallReturns(s: System, es: seq<Event>, e: Event)
    requires Initial(s) && IsRun(s, es) && Enabled(After(s, es), e) && !e.Shutdown?
    requires Step(After(s, es), e).overReads == 0
    requires !After(s, es).client.Ready? && After(s, es).client.call.Plain? && Step(After(s, es), e).client.Ready?
    ensures IsRun(s, es + [e])
    ensures var t, u, h := After(s, es), After(s, es + [e]), Notes(NOTHING, s, es + [e]);
            && u.overReads == 0 && u.open && u.client.Ready? && !u.inPoll
            && u.badCancels == t.badCancels && u.badPolls == t.badPolls
            && h.asked != [] && h.asked[|h.asked| - 1].kind == t.client.call.kind && h.decoded != []
  {
    var g, t := Notes(NOTHING, s, es), After(s, es);
    NotesAppend(NOTHING, s, es, e);
    StepMonotone(t, e);
    InitRecorded(s);
    RunBasic(s, es);
    RunRecorded(NOTHING, s, es);
    RunLast(NOTHING, s, es);
    PlainEnds(g, t, e);
    DecodesSomething(g, t, e);
  }

  /**
   Which reply a plain call gets, exactly, over every run without over-read: the answer to the
   request as many places before its own as cancels failed more often than begin-polls. So it gets
   its own reply if and only if the two are equal.
   */
  lemma WhichReply(s: System, es: seq<Event>, e: Event)
    requires Initial(s) && IsRun(s, es) && Enabled(After(s, es), e) && !e.Shutdown?
    requires Step(After(s, es), e).overReads == 0
    requires !After(s, es).client.Ready? && After(s, es).client.call.Plain? && Step(After(s, es), e).client.Ready?
    ensures IsRun(s, es + [e])
    ensures var t := After(s, es);
            Got(Notes(NOTHING, s, es + [e]), t.client.call.kind, t.badCancels - t.badPolls)
  {
    var t := After(s, es);
    CallReturns(s, es, e);
    BetweenCalls(s, es + [e]);
    GotInTurn(Notes(NOTHING, s, es + [e]), t.client.call.kind, t.badCancels - t.badPolls);
  }

  lemma DecodesSomething(h: History, t: System, e: Event)
    requires Enabled(t, e) && !e.Shutdown? && Step(t, e).overReads == 0
    requires !t.client.Ready? && t.client.call.Plain? && Step(t, e).client.Ready?
    requires t.client.AwaitBody? ==> |h.data| == t.client.got
    ensures Note(h, t, e).decoded != []
  {
    assert e.ReadHeader? || e.ReadBody?;
  }

  /** In a run without slips it gets its own. */
  lemma OwnReply(s: System, es: seq<Event>, e: Event)
    requires Initial(s) && IsRun(s, es) && Enabled(After(s, es), e) && !e.Shutdown?
    requires After(s, es).badCancels == 0 && After(s, es).badPolls == 0
    requires !After(s, es).client.Ready? && After(s, es).client.call.Plain? && Step(After(s, es), e).client.Ready?
    ensures IsRun(s, es + [e])
    ensures Got(Notes(NOTHING, s, es + [e]), After(s, es).client.call.kind, 0)
  {
    NotesAppend(NOTHING, s, es, e);
    InitRecorded(s);
    RunBasic(s, es);
    PlainEnds(NOTHING, After(s, es), e);
    Synchronised(s, es + [e]);
    WhichReply(s, es, e);
  }
}
