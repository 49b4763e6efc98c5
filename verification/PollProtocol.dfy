/**
 The request/reply protocol between an application handle and its daemon session, as one
 transition system over both sides and the two byte streams between them.

 The client half follows applib/dtn_api.c over applib/dtn_ipc.c; the server half follows
 `APIClient::run` and its handlers. Each handler is one atomic step. Every choice the code
 leaves to its environment (which call the application makes, how many bytes a read returns,
 what a handler answers, when a blocked poll wakes up) is carried by an `Event`.
 */
module PollProtocol {
  import opened Bytes
  import opened IpcDefs

  /** Calls that send one request and wait for its reply. */
  predicate PlainKind(k: Byte) {
    k in {3, 4, 5, 6, 8, 9, 10, 11, 12, 15, 16, 17, 18}
  }

  /** Plain calls that first collect the outcome of a poll, if one is outstanding. */
  predicate ReceivingKind(k: Byte) {
    k == RECV || k == SESSION_UPDATE || k == PEEK
  }

  predicate PollKind(k: Byte) {
    k == BEGIN_POLL || k == CANCEL_POLL
  }

  /** What a call is waiting for. */
  datatype Call =
    | Plain(kind: Byte)
    | Prologue(next: Byte)   // the poll's reply, before sending `next`
    | CancelFirst            // the first of the two replies a cancel collects
    | CancelSecond

  /** `AwaitBody.kind` is auxiliary: the type of the request this reply answers. */
  datatype Client =
    | Ready
    | AwaitHeader(call: Call)
    | AwaitBody(call: Call, status: nat, len: nat, got: nat, kind: Byte)

  /** `Polling` and `Waiting` are the two places where a handler blocks. */
  datatype Server = Idle | Polling | Waiting(kind: Byte)

  datatype Answer = Answer(kind: Byte, reply: Reply)

  /**
   Packing a call's arguments. A pack fails when the arguments do not fit behind what the encoder
   already holds, and then leaves the items it had written, the first `written` bytes.
   */
  datatype Encoding = Encoded(args: seq<Byte>) | Failed(args: seq<Byte>, written: nat)

  /**
   `residue` is what the encoder still holds from failed packs: only a send rewinds it.
   The fields from `reqs` on are auxiliary. `reqs` and `answers` list the messages whose
   bytes are in flight, and the rest count what has happened.
   */
  datatype System = System(
    open: bool,
    client: Client, inPoll: bool, residue: seq<Byte>,
    server: Server,
    c2s: seq<Byte>, s2c: seq<Byte>,
    clientSent: nat, serverRcvd: nat, serverSent: nat, clientRcvd: nat,
    reqs: seq<Request>, answers: seq<Answer>,
    sent: nat, read: nat,
    badCancels: nat, badPolls: nat, overReads: nat)

  /** A freshly opened handle and its session, after the handshake. */
  predicate Initial(s: System) {
    && s.open && s.client.Ready? && !s.inPoll && s.server.Idle?
    && s.residue == [] && s.c2s == [] && s.s2c == [] && s.reqs == [] && s.answers == []
    && s.clientSent == s.serverRcvd && s.serverSent == s.clientRcvd
    && s.sent == s.read == 0 && s.badCancels == s.badPolls == s.overReads == 0
  }

  datatype Event =
    | Rejected                                  // a call the in_poll guard turns away
    | CallPlain(kind: Byte, enc: Encoding)
    | BeginPoll(timeout: seq<Byte>)             // one word
    | CancelPoll
    | CallInPoll(kind: Byte)
    | ReadHeader(enc: Encoding)
    | ReadBody(n: nat, enc: Encoding)
    | Serve(status: nat, body: seq<Byte>)
    | Block
    | Wake(status: nat, body: seq<Byte>)
    | SocketReady
    | Shutdown                                  // either side drops the connection

  // ---------------------------------------------------------------- steps

  /** The buffer has room for so many more bytes. */
  predicate HasRoom(s: System, n: nat) {
    |s.residue| + n <= MAX_BODY
  }

  /** Whether packing these arguments can go this way. */
  predicate Fits(s: System, enc: Encoding) {
    match enc
    case Encoded(args) => HasRoom(s, |args|)
    case Failed(args, written) => !HasRoom(s, |args|) && HasRoom(s, written) && written < |args|
  }

  /** A complete request stands at the front of the client-to-server stream. */
  predicate RequestAvailable(s: System) {
    |s.c2s| >= 5 && |s.c2s| >= 5 + RequestLength(s.c2s)
  }

  predicate PollAnswer(status: nat, body: seq<Byte>) {
    status in {SUCCESS, EINVAL, EXDR, ETIMEOUT, EINTERNAL} && body == []
  }

  /** Answers a handler that does not block may give to a request of type `k`. */
  predicate ImmediateAnswer(k: Byte, status: nat, body: seq<Byte>) {
    if k == CANCEL_POLL then status == SUCCESS && body == []
    else if k == BEGIN_POLL then PollAnswer(status, body)
    else OtherAnswer(status, body)
  }

  predicate OtherAnswer(status: nat, body: seq<Byte>) {
    (status == SUCCESS || 128 <= status <= 255) && status != ECOMM && |body| <= MAX_BODY
  }

  predicate Enabled(s: System, e: Event) {
    && s.open
    && match e
       case Rejected => s.client.Ready?
       case CallPlain(k, enc) => s.client.Ready? && !s.inPoll && PlainKind(k) && Fits(s, enc)
       case BeginPoll(timeout) => s.client.Ready? && !s.inPoll && |timeout| == 4
       case CancelPoll => s.client.Ready? && s.inPoll && HasRoom(s, 0)
       case CallInPoll(k) => s.client.Ready? && s.inPoll && ReceivingKind(k)
       case ReadHeader(enc) => s.client.AwaitHeader? && |s.s2c| >= 8 && Fits(s, enc)
       case ReadBody(n, enc) =>
         && s.client.AwaitBody? && 1 <= n <= |s.s2c|
         && 8 + s.client.got + n <= MAX_API_MSG && Fits(s, enc)
       case Serve(status, body) =>
         s.server.Idle? && RequestAvailable(s) && ImmediateAnswer(RequestKind(s.c2s), status, body)
       case Block =>
         && s.server.Idle? && RequestAvailable(s)
         && (RequestKind(s.c2s) == BEGIN_POLL || ReceivingKind(RequestKind(s.c2s)))
       case Wake(status, body) =>
         || (s.server.Polling? && PollAnswer(status, body))
         || (s.server.Waiting? && OtherAnswer(status, body))
       case SocketReady => !s.server.Idle? && |s.c2s| > 0
       case Shutdown => true
  }

  function Dispatch(s: System, k: Byte, enc: Encoding): (t: System)
    requires Fits(s, enc)
  {
    match enc
    case Failed(args, written) => s.(client := Ready, residue := s.residue + args[..written])
    case Encoded(args) => Transmit(s, Request(k, s.residue + args)).(client := AwaitHeader(Plain(k)))
  }

  /** `dtnipc_send`: one frame on the wire, and the encoder rewound. */
  function Transmit(s: System, q: Request): (t: System)
    requires FramableRequest(q)
  {
    s.(residue := [], c2s := s.c2s + RequestFrame(q), clientSent := s.clientSent + 5 + |q.body|,
       reqs := s.reqs + [q], sent := s.sent + 1)
  }

  /** `send_response` at the end of a handler. */
  function Respond(s: System, k: Byte, p: Reply): (t: System)
    requires FramableReply(p)
  {
    s.(server := Idle, s2c := s.s2c + ReplyFrame(p), serverSent := s.serverSent + 8 + |p.body|,
       answers := s.answers + [Answer(k, p)])
  }

  function TakeRequest(s: System): (t: System)
    requires RequestAvailable(s)
  {
    var n := 5 + RequestLength(s.c2s);
    s.(c2s := s.c2s[n..], serverRcvd := s.serverRcvd + n, reqs := if s.reqs == [] then [] else s.reqs[1..])
  }

  /** What a call does once the whole reply it waited for has been read. */
  function Finish(s: System, call: Call, status: nat, len: nat, enc: Encoding): (t: System)
    requires Fits(s, enc)
  {
    var s' := s.(read := s.read + 1, client := Ready);
    match call
    case Plain(_) => s'
    case Prologue(k) => if len != 0 || status != SUCCESS then s' else Dispatch(s', k, enc)
    case CancelFirst =>
      if status != SUCCESS then s'.(badCancels := s.badCancels + 1)
      else s'.(client := AwaitHeader(CancelSecond))
    case CancelSecond => s'
  }

  /** The eight-byte read at the start of `dtnipc_recv`. */
  function TakeHeader(s: System): (t: System)
    requires |s.s2c| >= 8
  {
    s.(s2c := s.s2c[8..], clientRcvd := s.clientRcvd + 8,
       answers := if s.answers == [] then [] else s.answers[1..])
  }

  function HeaderStep(s: System, enc: Encoding): (t: System)
    requires Enabled(s, ReadHeader(enc))
  {
    var status, len := ReplyStatus(s.s2c), ReplyLength(s.s2c);
    if len == 0 then Finish(TakeHeader(s), s.client.call, status, 0, enc)
    else TakeHeader(s).(client := AwaitBody(s.client.call, status, len, 0,
                                            if s.answers == [] then CLOSE else s.answers[0].kind))
  }

  /** `data` written over `residue` from `at` on, as far as it reaches. */
  function Overwritten(residue: seq<Byte>, at: nat, data: seq<Byte>): (r: seq<Byte>) {
    seq(|residue|, i requires 0 <= i < |residue| => if at <= i < at + |data| then data[i - at] else residue[i])
  }

  /**
   One read of the body loop, which asks for all the room left in the buffer. A body goes where the
   encoder keeps what failed packs left in it.
   */
  function TakeBody(s: System, n: nat): (t: System)
    requires s.client.AwaitBody? && n <= |s.s2c|
  {
    var c := s.client;
    s.(s2c := s.s2c[n..], clientRcvd := s.clientRcvd + n,
       residue := Overwritten(s.residue, c.got, s.s2c[..n]),
       client := if c.got + n < c.len then c.(got := c.got + n) else AwaitHeader(c.call),
       overReads := if c.got + n > c.len then s.overReads + 1 else s.overReads)
  }

  function BodyStep(s: System, n: nat, enc: Encoding): (t: System)
    requires Enabled(s, ReadBody(n, enc))
  {
    var c := s.client;
    if c.got + n < c.len then TakeBody(s, n) else Finish(TakeBody(s, n), c.call, c.status, c.len, enc)
  }

  function ServeStep(s: System, status: nat, body: seq<Byte>): (t: System)
    requires Enabled(s, Serve(status, body))
  {
    var k := RequestKind(s.c2s);
    if k == CLOSE then TakeRequest(s).(open := false)
    else if !PlainKind(k) && !PollKind(k) then Respond(TakeRequest(s), k, Reply(EMSGTYPE, [])).(open := false)
    else Respond(TakeRequest(s), k, Reply(status, body))
  }

  function BlockStepOf(s: System): (t: System)
    requires RequestAvailable(s)
  {
    var k := RequestKind(s.c2s);
    TakeRequest(s).(server := if k == BEGIN_POLL then Polling else Waiting(k))
  }

  function BlockStep(s: System): (t: System)
    requires Enabled(s, Block)
  {
    BlockStepOf(s)
  }

  function BusyKind(v: Server): (k: Byte)
    requires !v.Idle?
  {
    if v.Polling? then BEGIN_POLL else v.kind
  }

  /** A cancel with an empty body is next on the stream while the poll handler is blocked. */
  predicate CancelWaiting(s: System) {
    && s.server.Polling? && |s.c2s| >= 5
    && RequestKind(s.c2s) == CANCEL_POLL && RequestLength(s.c2s) == 0
  }

  /**
   The source answers the cancel first and the poll second. The labels here are the other way
   round, in the order of the requests. Both answers are SUCCESS with no body, so the two frames
   are equal and the stream is the same either way.
   */
  function CancelInPoll(s: System): (t: System)
    requires CancelWaiting(s)
  {
    Respond(Respond(TakeRequest(s), BEGIN_POLL, Reply(SUCCESS, [])), CANCEL_POLL, Reply(SUCCESS, []))
  }

  function Step(s: System, e: Event): (t: System)
    requires Enabled(s, e)
  {
    match e
    case Rejected => s
    case CallPlain(k, enc) => Dispatch(s, k, enc)
    case BeginPoll(timeout) =>
      // the flag is set before the timeout is packed; a word that does not fit leaves nothing behind
      if HasRoom(s, 4) then Transmit(s, Request(BEGIN_POLL, s.residue + timeout)).(inPoll := true)
      else s.(inPoll := true, badPolls := s.badPolls + 1)
    case CancelPoll =>
      Transmit(s, Request(CANCEL_POLL, s.residue)).(inPoll := false, client := AwaitHeader(CancelFirst))
    case CallInPoll(k) => s.(inPoll := false, client := AwaitHeader(Prologue(k)))
    case ReadHeader(enc) => HeaderStep(s, enc)
    case ReadBody(n, enc) => BodyStep(s, n, enc)
    case Serve(status, body) => ServeStep(s, status, body)
    case Block => BlockStep(s)
    case Wake(status, body) => Respond(s, BusyKind(s.server), Reply(status, body))
    case SocketReady => if CancelWaiting(s) then CancelInPoll(s) else s.(open := false)
    case Shutdown => s.(open := false)
  }

  /** `es` is a run from `s`: every event is enabled when its turn comes. */
  predicate IsRun(s: System, es: seq<Event>)
    decreases |es|
  {
    es == [] || (Enabled(s, es[0]) && IsRun(Step(s, es[0]), es[1..]))
  }

  function After(s: System, es: seq<Event>): (t: System)
    requires IsRun(s, es)
    decreases |es|
  {
    if es == [] then s else After(Step(s, es[0]), es[1..])
  }

  // ---------------------------------------------------------------- what is in flight

  function AnswerKinds(a: seq<Answer>): (r: seq<Byte>) {
    seq(|a|, i requires 0 <= i < |a| => a[i].kind)
  }

  function RequestKinds(q: seq<Request>): (r: seq<Byte>) {
    seq(|q|, i requires 0 <= i < |q| => q[i].kind)
  }

  function Replies(a: seq<Answer>): (r: seq<Reply>) {
    seq(|a|, i requires 0 <= i < |a| => a[i].reply)
  }

  /** Requests sent whose replies have not been read to the end, oldest first. */
  function Outstanding(s: System): (r: seq<Byte>) {
    (if s.client.AwaitBody? then [s.client.kind] else [])
    + AnswerKinds(s.answers)
    + (match s.server case Idle => [] case Polling => [BEGIN_POLL] case Waiting(k) => [k])
    + RequestKinds(s.reqs)
  }

  /** What the client's own state says should be outstanding, oldest first. */
  function Expected(s: System): (r: seq<Byte>) {
    (match s.client
     case Ready => []
     case AwaitHeader(c) => ExpectedBy(c)
     case AwaitBody(c, _, _, _, _) => ExpectedBy(c))
    + (if s.inPoll then [BEGIN_POLL] else [])
  }

  function ExpectedBy(c: Call): (r: seq<Byte>) {
    match c
    case Plain(k) => [k]
    case Prologue(_) => [BEGIN_POLL]
    case CancelFirst => [BEGIN_POLL, CANCEL_POLL]
    case CancelSecond => [CANCEL_POLL]
  }

  // ---------------------------------------------------------------- invariants

  predicate RequestsWellFormed(s: System) {
    && (forall q :: q in s.reqs ==> FramableRequest(q) && (PlainKind(q.kind) || PollKind(q.kind)))
    && s.c2s == RequestBytes(s.reqs)
  }

  predicate AnswersWellFormed(s: System) {
    forall a :: a in s.answers ==>
      && FramableReply(a.reply) && |a.reply.body| <= MAX_BODY
      && (PollKind(a.kind) ==> a.reply.body == [])
  }

  /** The reply stream is exactly the rest of the current body, then whole frames. */
  predicate RepliesAligned(s: System)
    requires AnswersWellFormed(s)
  {
    var whole := ReplyBytes(Replies(s.answers));
    if s.client.AwaitBody? then
      && 0 <= s.client.got < s.client.len <= MAX_BODY
      && !PollKind(s.client.kind)
      && |s.s2c| == s.client.len - s.client.got + |whole|
      && s.s2c[s.client.len - s.client.got..] == whole
    else s.s2c == whole
  }

  /** Facts every reachable state keeps, whatever the application and the network do. */
  predicate Basic(s: System) {
    && RequestsWellFormed(s)
    && AnswersWellFormed(s)
    && (s.server.Waiting? ==> ReceivingKind(s.server.kind))
    && (s.inPoll ==> s.client.Ready?)
    && (!s.client.Ready? && s.client.call.Prologue? ==> ReceivingKind(s.client.call.next))
    && (s.overReads == 0 ==> RepliesAligned(s))
    && s.clientSent == s.serverRcvd + |s.c2s|
    && s.serverSent == s.clientRcvd + |s.s2c|
  }

  /** The ledger: what is outstanding, against what the client believes, plus past slips. */
  predicate Balanced(s: System) {
    && s.sent - s.read == |Outstanding(s)|
    && |Outstanding(s)| + s.badPolls == |Expected(s)| + s.badCancels
  }

  /** The two sides are in step: what is outstanding is what the client expects, in order. */
  predicate InStep(s: System) {
    && s.overReads == 0
    && Outstanding(s) == Expected(s)
    && (s.inPoll ==> s.residue == [])
    && (forall q :: q in s.reqs && q.kind == CANCEL_POLL ==> q.body == [])
  }

  /**
   The two steps after which the client's flag no longer matches the channel: a cancel whose
   first reply is not SUCCESS, and a begin-poll whose timeout has no room in the buffer.
   */
  predicate Slips(s: System, e: Event)
    requires Enabled(s, e)
  {
    match e
    case BeginPoll(_) => !HasRoom(s, 4)
    case ReadHeader(_) => s.client.call.CancelFirst? && ReplyLength(s.s2c) == 0 && ReplyStatus(s.s2c) != SUCCESS
    case _ => false
  }

  // ---------------------------------------------------------------- single steps

  lemma FrontRequest(s: System)
    requires RequestsWellFormed(s) && |s.c2s| > 0
    ensures s.reqs != [] && RequestAvailable(s)
    ensures RequestKind(s.c2s) == s.reqs[0].kind
    ensures RequestLength(s.c2s) == |s.reqs[0].body|
    ensures RequestsWellFormed(TakeRequest(s))
  {
    RequestFrameParses(s.reqs[0], RequestBytes(s.reqs[1..]));
  }

  lemma FrontAnswer(s: System)
    requires AnswersWellFormed(s) && s.s2c == ReplyBytes(Replies(s.answers)) && |s.s2c| >= 8
    ensures s.answers != []
    ensures ReplyStatus(s.s2c) == s.answers[0].reply.status
    ensures ReplyLength(s.s2c) == |s.answers[0].reply.body|
    ensures s.s2c[8..] == s.answers[0].reply.body + ReplyBytes(Replies(s.answers[1..]))
  {
    assert Replies(s.answers)[1..] == Replies(s.answers[1..]);
    ReplyFrameParses(s.answers[0].reply, ReplyBytes(Replies(s.answers[1..])));
  }

  lemma TransmitKeeps(s: System, q: Request)
    requires Basic(s) && FramableRequest(q) && (PlainKind(q.kind) || PollKind(q.kind))
    ensures Basic(Transmit(s, q))
    ensures Outstanding(Transmit(s, q)) == Outstanding(s) + [q.kind]
  {
    RequestBytesAppend(s.reqs, q);
    assert RequestKinds(s.reqs + [q]) == RequestKinds(s.reqs) + [q.kind];
  }

  lemma RespondKeeps(s: System, k: Byte, p: Reply)
    requires Basic(s) && |p.body| <= MAX_BODY && p.status <= 255
    requires PollKind(k) ==> p.body == []
    ensures Basic(Respond(s, k, p))
    ensures AnswerKinds(Respond(s, k, p).answers) == AnswerKinds(s.answers) + [k]
  {
    var t := Respond(s, k, p);
    assert Replies(t.answers) == Replies(s.answers) + [p];
    ReplyBytesAppend(Replies(s.answers), p);
  }

  lemma TakeKeeps(s: System)
    requires Basic(s) && |s.c2s| > 0
    ensures s.reqs != [] && RequestAvailable(s) && Basic(TakeRequest(s))
    ensures RequestKinds(s.reqs) == [s.reqs[0].kind] + RequestKinds(TakeRequest(s).reqs)
  {
    FrontRequest(s);
  }

  /** Reading a reply to its end changes nothing on either stream. */
  lemma ReadyAgain(s: System, c: Client)
    requires Basic(s) && !s.client.Ready? && (c == Ready || c == AwaitHeader(CancelSecond))
    requires s.overReads == 0 ==> s.s2c == ReplyBytes(Replies(s.answers))
    ensures Basic(s.(read := s.read + 1, client := c))
  {
  }

  lemma FinishKeeps(s: System, call: Call, status: nat, len: nat, enc: Encoding)
    requires Basic(s) && Fits(s, enc) && !s.client.Ready?
    requires call.Prologue? ==> ReceivingKind(call.next)
    requires s.overReads == 0 ==> s.s2c == ReplyBytes(Replies(s.answers))
    ensures Basic(Finish(s, call, status, len, enc))
  {
    var s' := s.(read := s.read + 1, client := Ready);
    ReadyAgain(s, Ready);
    ReadyAgain(s, AwaitHeader(CancelSecond));
    if call.Prologue? && len == 0 && status == SUCCESS && enc.Encoded? {
      TransmitKeeps(s', Request(call.next, s'.residue + enc.args));
    }
  }

  lemma ClientStepBasic(s: System, e: Event)
    requires Basic(s) && Enabled(s, e)
    requires e.Rejected? || e.CallPlain? || e.BeginPoll? || e.CancelPoll? || e.CallInPoll?
    ensures Basic(Step(s, e))
  {
    match e
    case CallPlain(k, enc) =>
      if enc.Encoded? { TransmitKeeps(s, Request(k, s.residue + enc.args)); }
    case BeginPoll(timeout) =>
      if HasRoom(s, 4) { TransmitKeeps(s, Request(BEGIN_POLL, s.residue + timeout)); }
    case CancelPoll => TransmitKeeps(s, Request(CANCEL_POLL, s.residue));
    case _ =>
  }

  lemma TakeHeaderBasic(s: System)
    requires Basic(s) && s.client.AwaitHeader? && |s.s2c| >= 8 && ReplyLength(s.s2c) == 0
    ensures Basic(TakeHeader(s))
  {
    if s.overReads == 0 { FrontAnswer(s); }
  }

  lemma HeaderStepBasic(s: System, enc: Encoding)
    requires Basic(s) && Enabled(s, ReadHeader(enc))
    ensures Basic(HeaderStep(s, enc))
  {
    if s.overReads == 0 { FrontAnswer(s); }
    if ReplyLength(s.s2c) == 0 {
      TakeHeaderBasic(s);
      FinishKeeps(TakeHeader(s), s.client.call, ReplyStatus(s.s2c), 0, enc);
    }
  }

  lemma TakeBodyBasic(s: System, n: nat)
    requires Basic(s) && s.client.AwaitBody? && n <= |s.s2c|
    ensures Basic(TakeBody(s, n))
  {
    var rest := s.client.len - s.client.got;
    if s.overReads == 0 && n < rest { assert s.s2c[n..][rest - n..] == s.s2c[rest..]; }
  }

  lemma BodyStepBasic(s: System, n: nat, enc: Encoding)
    requires Basic(s) && Enabled(s, ReadBody(n, enc))
    ensures Basic(BodyStep(s, n, enc))
  {
    TakeBodyBasic(s, n);
    if s.client.got + n >= s.client.len {
      FinishKeeps(TakeBody(s, n), s.client.call, s.client.status, s.client.len, enc);
    }
  }

  /** A request answered at once stays outstanding as its answer. */
  lemma ServeOutstanding(s: System, p: Reply)
    requires RequestAvailable(s) && s.server.Idle? && s.reqs != [] && FramableReply(p)
    ensures Outstanding(Respond(TakeRequest(s), s.reqs[0].kind, p)) == Outstanding(s)
  {
    var k, b := s.reqs[0].kind, if s.client.AwaitBody? then [s.client.kind] else [];
    assert RequestKinds(s.reqs) == [k] + RequestKinds(s.reqs[1..]);
    assert AnswerKinds(s.answers + [Answer(k, p)]) == AnswerKinds(s.answers) + [k];
    MoveOver(b, AnswerKinds(s.answers), k, RequestKinds(s.reqs[1..]));
  }

  lemma MoveOver(b: seq<Byte>, a: seq<Byte>, k: Byte, q: seq<Byte>)
    ensures b + (a + [k]) + [] + q == b + a + [] + ([k] + q)
    ensures b + a + [k] + q == b + a + [] + ([k] + q)
  {
  }

  lemma ServeStepBasic(s: System, status: nat, body: seq<Byte>)
    requires Basic(s) && Enabled(s, Serve(status, body))
    ensures Basic(ServeStep(s, status, body))
    ensures Outstanding(ServeStep(s, status, body)) == Outstanding(s)
  {
    TakeKeeps(s);
    FrontRequest(s);
    assert s.reqs[0] in s.reqs;
    RespondKeeps(TakeRequest(s), s.reqs[0].kind, Reply(status, body));
    ServeOutstanding(s, Reply(status, body));
  }

  lemma BlockOutstanding(s: System)
    requires RequestAvailable(s) && s.server.Idle? && s.reqs != [] && RequestKind(s.c2s) == s.reqs[0].kind
    ensures Outstanding(BlockStepOf(s)) == Outstanding(s)
  {
    var k, b := s.reqs[0].kind, if s.client.AwaitBody? then [s.client.kind] else [];
    assert RequestKinds(s.reqs) == [k] + RequestKinds(s.reqs[1..]);
    MoveOver(b, AnswerKinds(s.answers), k, RequestKinds(s.reqs[1..]));
  }

  lemma BlockStepBasic(s: System)
    requires Basic(s) && Enabled(s, Block)
    ensures Basic(BlockStep(s))
    ensures Outstanding(BlockStep(s)) == Outstanding(s)
  {
    TakeKeeps(s);
    FrontRequest(s);
    BlockOutstanding(s);
  }

  lemma WakeBasic(s: System, status: nat, body: seq<Byte>)
    requires Basic(s) && Enabled(s, Wake(status, body))
    ensures var t := Respond(s, BusyKind(s.server), Reply(status, body));
            Basic(t) && Outstanding(t) == Outstanding(s)
  {
    RespondKeeps(s, BusyKind(s.server), Reply(status, body));
  }

  /** A cancel consumed inside the poll pays off two outstanding requests with two replies. */
  lemma CancelInPollBasic(s: System)
    requires Basic(s) && CancelWaiting(s)
    ensures Basic(CancelInPoll(s))
    ensures Outstanding(CancelInPoll(s)) == Outstanding(s)
  {
    TakeKeeps(s);
    FrontRequest(s);
    RespondKeeps(TakeRequest(s), BEGIN_POLL, Reply(SUCCESS, []));
    RespondKeeps(Respond(TakeRequest(s), BEGIN_POLL, Reply(SUCCESS, [])), CANCEL_POLL, Reply(SUCCESS, []));
  }

  /** Every step keeps both streams framed and both byte counters balanced. */
  lemma StepBasic(s: System, e: Event)
    requires Basic(s) && Enabled(s, e)
    ensures Basic(Step(s, e))
  {
    match e
    case ReadHeader(enc) => HeaderStepBasic(s, enc);
    case ReadBody(n, enc) => BodyStepBasic(s, n, enc);
    case Serve(status, body) => ServeStepBasic(s, status, body);
    case Block => BlockStepBasic(s);
    case Wake(status, body) => WakeBasic(s, status, body);
    case SocketReady => if CancelWaiting(s) { CancelInPollBasic(s); }
    case Shutdown =>
    case _ => ClientStepBasic(s, e);
  }

  // ---------------------------------------------------------------- the ledger

  /** The prologue of a receiving call goes on to send that call's request. */
  predicate GoesOn(call: Call, status: nat, len: nat, enc: Encoding) {
    call.Prologue? && len == 0 && status == SUCCESS && enc.Encoded?
  }

  lemma FinishOutstanding(s: System, call: Call, status: nat, len: nat, enc: Encoding)
    requires Basic(s) && Fits(s, enc) && s.client.AwaitHeader?
    requires call.Prologue? ==> ReceivingKind(call.next)
    ensures var t := Finish(s, call, status, len, enc);
            && Outstanding(t) == Outstanding(s) + (if GoesOn(call, status, len, enc) then [call.next] else [])
            && t.sent == s.sent + (if GoesOn(call, status, len, enc) then 1 else 0)
            && t.read == s.read + 1
  {
    var s' := s.(read := s.read + 1, client := Ready);
    assert Outstanding(s') == Outstanding(s);
    if GoesOn(call, status, len, enc) {
      TransmitOutstanding(s', Request(call.next, s'.residue + enc.args));
    }
  }

  lemma TransmitOutstanding(s: System, q: Request)
    requires FramableRequest(q)
    ensures Outstanding(Transmit(s, q)) == Outstanding(s) + [q.kind]
  {
    assert RequestKinds(s.reqs + [q]) == RequestKinds(s.reqs) + [q.kind];
  }

  /** What finishing a call leaves alone. */
  lemma FinishFrame(s: System, call: Call, status: nat, len: nat, enc: Encoding)
    requires Fits(s, enc)
    ensures var t := Finish(s, call, status, len, enc);
            && t.inPoll == s.inPoll && t.badPolls == s.badPolls && t.overReads == s.overReads
            && (call.Prologue? ==> ReceivingKind(call.next)) ==>
                 forall q :: q in t.reqs && q.kind == CANCEL_POLL ==> q in s.reqs
  {
  }

  /** Taking a header uncovers the oldest answer. */
  lemma HeaderOutstanding(s: System)
    requires Basic(s) && s.overReads == 0 && s.client.AwaitHeader? && |s.s2c| >= 8
    ensures s.answers != [] && Outstanding(s) == [s.answers[0].kind] + Outstanding(TakeHeader(s))
    ensures PollKind(s.answers[0].kind) ==> ReplyLength(s.s2c) == 0
  {
    FrontAnswer(s);
    assert s.answers[0] in s.answers;
    PopOutstanding(s);
  }

  lemma PopOutstanding(s: System)
    requires s.client.AwaitHeader? && s.answers != [] && |s.s2c| >= 8
    ensures Outstanding(s) == [s.answers[0].kind] + Outstanding(TakeHeader(s))
  {
    assert AnswerKinds(s.answers) == [s.answers[0].kind] + AnswerKinds(s.answers[1..]);
  }

  /** The reply has left the stream and its call has not yet been told. */
  lemma FinishBalanced(s: System, status: nat, len: nat, enc: Encoding)
    requires Basic(s) && Fits(s, enc) && s.client.AwaitHeader?
    requires s.sent - s.read == |Outstanding(s)| + 1
    requires |Outstanding(s)| + 1 + s.badPolls == |ExpectedBy(s.client.call)| + s.badCancels
    ensures Balanced(Finish(s, s.client.call, status, len, enc))
  {
    FinishOutstanding(s, s.client.call, status, len, enc);
    FinishFrame(s, s.client.call, status, len, enc);
  }

  lemma HeaderBalanced(s: System, enc: Encoding)
    requires Basic(s) && Balanced(s) && s.overReads == 0 && Enabled(s, ReadHeader(enc))
    ensures Balanced(HeaderStep(s, enc))
  {
    HeaderOutstanding(s);
    if ReplyLength(s.s2c) == 0 {
      TakeHeaderBasic(s);
      FinishBalanced(TakeHeader(s), ReplyStatus(s.s2c), 0, enc);
    }
  }

  lemma BodyOutstanding(s: System, n: nat)
    requires s.client.AwaitBody? && n <= |s.s2c|
    ensures if s.client.got + n < s.client.len then Outstanding(TakeBody(s, n)) == Outstanding(s)
            else [s.client.kind] + Outstanding(TakeBody(s, n)) == Outstanding(s)
  {
  }

  lemma BodyBalanced(s: System, n: nat, enc: Encoding)
    requires Basic(s) && Balanced(s) && s.overReads == 0 && Enabled(s, ReadBody(n, enc))
    ensures Balanced(BodyStep(s, n, enc))
  {
    TakeBodyBasic(s, n);
    BodyOutstanding(s, n);
    if s.client.got + n >= s.client.len {
      FinishBalanced(TakeBody(s, n), s.client.status, s.client.len, enc);
    }
  }

  lemma ClientBalanced(s: System, e: Event)
    requires Basic(s) && Balanced(s) && Enabled(s, e)
    requires e.Rejected? || e.CallPlain? || e.BeginPoll? || e.CancelPoll? || e.CallInPoll?
    ensures Balanced(Step(s, e))
  {
    match e
    case CallPlain(k, enc) =>
      if enc.Encoded? { TransmitKeeps(s, Request(k, s.residue + enc.args)); }
    case BeginPoll(timeout) =>
      if HasRoom(s, 4) { TransmitKeeps(s, Request(BEGIN_POLL, s.residue + timeout)); }
    case CancelPoll => TransmitKeeps(s, Request(CANCEL_POLL, s.residue));
    case _ =>
  }

  lemma ServerBalanced(s: System, e: Event)
    requires Basic(s) && Balanced(s) && Enabled(s, e)
    requires e.Serve? || e.Block? || e.Wake? || e.SocketReady? || e.Shutdown?
    ensures Balanced(Step(s, e))
  {
    match e
    case Serve(status, body) => ServeStepBasic(s, status, body); ServeCounts(s, status, body);
    case Block => BlockStepBasic(s);
    case Wake(status, body) => WakeBasic(s, status, body);
    case SocketReady => if CancelWaiting(s) { CancelInPollBasic(s); }
    case Shutdown =>
  }

  lemma StepBalanced(s: System, e: Event)
    requires Basic(s) && Balanced(s) && s.overReads == 0 && Enabled(s, e)
    ensures Balanced(Step(s, e))
  {
    if e.ReadHeader? {
      HeaderBalanced(s, e.enc);
    } else if e.ReadBody? {
      BodyBalanced(s, e.n, e.enc);
    } else if e.Serve? || e.Block? || e.Wake? || e.SocketReady? || e.Shutdown? {
      ServerBalanced(s, e);
    } else {
      ClientBalanced(s, e);
    }
  }

  lemma ServeCounts(s: System, status: nat, body: seq<Byte>)
    requires Enabled(s, Serve(status, body))
    ensures var t := ServeStep(s, status, body);
            && t.client == s.client && t.inPoll == s.inPoll && t.sent == s.sent && t.read == s.read
            && t.badCancels == s.badCancels && t.badPolls == s.badPolls
            && t.overReads == s.overReads && t.residue == s.residue
  {
  }

  // ---------------------------------------------------------------- staying in step

  /** While in step, a body is being read only for a plain call, and nothing follows it. */
  lemma BodyAlone(s: System)
    requires Basic(s) && InStep(s) && s.client.AwaitBody?
    ensures s.client.call == Plain(s.client.kind) && s.answers == [] && s.reqs == [] && s.server.Idle?
    ensures |s.s2c| == s.client.len - s.client.got
  {
    var o := Outstanding(s);
    assert o[0] == s.client.kind && o == ExpectedBy(s.client.call);
    assert |o| == 1 + |s.answers| + (if s.server.Idle? then 0 else 1) + |s.reqs|;
  }

  lemma FinishInStep(s: System, status: nat, len: nat, enc: Encoding)
    requires Basic(s) && Fits(s, enc) && s.client.AwaitHeader? && s.overReads == 0
    requires Outstanding(s) == ExpectedBy(s.client.call)[1..]
    requires forall q :: q in s.reqs && q.kind == CANCEL_POLL ==> q.body == []
    ensures var t := Finish(s, s.client.call, status, len, enc);
            if s.client.call.CancelFirst? && status != SUCCESS then |Outstanding(t)| == |Expected(t)| + 1
            else InStep(t)
  {
    FinishOutstanding(s, s.client.call, status, len, enc);
    FinishFrame(s, s.client.call, status, len, enc);
  }

  lemma HeaderTaken(s: System)
    requires Basic(s) && InStep(s) && s.client.AwaitHeader? && |s.s2c| >= 8
    ensures Expected(s) == ExpectedBy(s.client.call)
    ensures Outstanding(TakeHeader(s)) == ExpectedBy(s.client.call)[1..]
  {
    HeaderOutstanding(s);
  }

  lemma EmptyHeaderInStep(s: System, enc: Encoding)
    requires Basic(s) && InStep(s) && Enabled(s, ReadHeader(enc)) && ReplyLength(s.s2c) == 0
    ensures if Slips(s, ReadHeader(enc)) then |Outstanding(HeaderStep(s, enc))| == |Expected(HeaderStep(s, enc))| + 1
            else InStep(HeaderStep(s, enc))
  {
    HeaderTaken(s);
    TakeHeaderBasic(s);
    FinishInStep(TakeHeader(s), ReplyStatus(s.s2c), 0, enc);
  }

  lemma HeaderInStep(s: System, enc: Encoding)
    requires Basic(s) && InStep(s) && Enabled(s, ReadHeader(enc))
    ensures if Slips(s, ReadHeader(enc)) then |Outstanding(HeaderStep(s, enc))| == |Expected(HeaderStep(s, enc))| + 1
            else InStep(HeaderStep(s, enc))
  {
    if ReplyLength(s.s2c) == 0 {
      EmptyHeaderInStep(s, enc);
    } else {
      HeaderOutstanding(s);
      HeaderTaken(s);
    }
  }

  lemma BodyInStep(s: System, n: nat, enc: Encoding)
    requires Basic(s) && InStep(s) && Enabled(s, ReadBody(n, enc))
    ensures InStep(BodyStep(s, n, enc))
  {
    BodyAlone(s);
    TakeBodyBasic(s, n);
    BodyOutstanding(s, n);
    if s.client.got + n >= s.client.len {
      FinishInStep(TakeBody(s, n), s.client.status, s.client.len, enc);
    }
  }

  lemma TransmitInStep(s: System, q: Request)
    requires Basic(s) && InStep(s) && FramableRequest(q) && (PlainKind(q.kind) || PollKind(q.kind))
    requires q.kind == CANCEL_POLL ==> q.body == []
    ensures var t := Transmit(s, q);
            && Outstanding(t) == Expected(s) + [q.kind]
            && (forall x :: x in t.reqs && x.kind == CANCEL_POLL ==> x.body == [])
  {
    TransmitKeeps(s, q);
  }

  lemma CallInStep(s: System, k: Byte, enc: Encoding)
    requires Basic(s) && InStep(s) && Enabled(s, CallPlain(k, enc))
    ensures InStep(Dispatch(s, k, enc)) && Dispatch(s, k, enc).open
  {
    if enc.Encoded? { TransmitInStep(s, Request(k, s.residue + enc.args)); }
  }

  lemma BeginPollInStep(s: System, timeout: seq<Byte>)
    requires Basic(s) && InStep(s) && Enabled(s, BeginPoll(timeout))
    ensures var t := Step(s, BeginPoll(timeout));
            t.open && if HasRoom(s, 4) then InStep(t) else |Outstanding(t)| + 1 == |Expected(t)|
  {
    if HasRoom(s, 4) { TransmitInStep(s, Request(BEGIN_POLL, s.residue + timeout)); }
  }

  lemma CancelPollInStep(s: System)
    requires Basic(s) && InStep(s) && Enabled(s, CancelPoll)
    ensures InStep(Step(s, CancelPoll)) && Step(s, CancelPoll).open
  {
    TransmitInStep(s, Request(CANCEL_POLL, s.residue));
  }

  /**
   In step, the server's two blocking waits are never surprised: data arriving during a poll
   is an empty cancel, and nothing at all arrives during a receive.
   */
  lemma SocketReadyIsCancel(s: System)
    requires Basic(s) && InStep(s) && Enabled(s, SocketReady)
    ensures CancelWaiting(s)
  {
    FrontRequest(s);
    var o := Outstanding(s);
    assert o == Expected(s);
    var a := |s.answers|;
    assert !s.client.AwaitBody? by { if s.client.AwaitBody? { BodyAlone(s); } }
    assert o[a] == BusyKind(s.server) && o[a + 1] == s.reqs[0].kind;
    assert s.reqs[0] in s.reqs;
  }

  /** A server step that keeps the outstanding requests keeps the two sides in step. */
  lemma SameOutstandingInStep(s: System, t: System)
    requires InStep(s) && Outstanding(t) == Outstanding(s)
    requires t.client == s.client && t.inPoll == s.inPoll && t.residue == s.residue && t.overReads == 0
    requires forall q :: q in t.reqs ==> q in s.reqs
    ensures InStep(t)
  {
    assert Expected(t) == Expected(s);
  }

  lemma ServeTakes(s: System, status: nat, body: seq<Byte>)
    requires Basic(s) && Enabled(s, Serve(status, body))
    ensures s.reqs != [] && ServeStep(s, status, body).reqs == s.reqs[1..] && ServeStep(s, status, body).open
  {
    FrontRequest(s);
    assert s.reqs[0] in s.reqs;
  }

  lemma ServeInStep(s: System, status: nat, body: seq<Byte>)
    requires Basic(s) && InStep(s) && Enabled(s, Serve(status, body))
    ensures InStep(ServeStep(s, status, body)) && ServeStep(s, status, body).open
  {
    ServeStepBasic(s, status, body);
    ServeCounts(s, status, body);
    ServeTakes(s, status, body);
    SameOutstandingInStep(s, ServeStep(s, status, body));
  }

  lemma BlockInStep(s: System)
    requires Basic(s) && InStep(s) && Enabled(s, Block)
    ensures InStep(BlockStep(s)) && BlockStep(s).open
  {
    BlockStepBasic(s);
    SameOutstandingInStep(s, BlockStep(s));
  }

  lemma WakeInStep(s: System, status: nat, body: seq<Byte>)
    requires Basic(s) && InStep(s) && Enabled(s, Wake(status, body))
    ensures InStep(Respond(s, BusyKind(s.server), Reply(status, body)))
  {
    WakeBasic(s, status, body);
    SameOutstandingInStep(s, Respond(s, BusyKind(s.server), Reply(status, body)));
  }

  lemma CancelInPollInStep(s: System)
    requires Basic(s) && InStep(s) && CancelWaiting(s)
    ensures InStep(CancelInPoll(s)) && CancelInPoll(s).open == s.open
  {
    CancelInPollBasic(s);
    SameOutstandingInStep(s, CancelInPoll(s));
  }

  lemma QuietInStep(s: System, e: Event)
    requires InStep(s) && Enabled(s, e) && (e.Rejected? || e.CallInPoll? || e.Shutdown?)
    ensures InStep(Step(s, e)) && (e.Shutdown? || Step(s, e).open)
  {
    assert Expected(Step(s, e)) == Expected(s);
  }

  /** The client's belief and the channel disagree on how many replies are due. */
  predicate OutOfStep(s: System) {
    |Outstanding(s)| != |Expected(s)|
  }

  lemma ServerInStep(s: System, e: Event)
    requires Basic(s) && InStep(s) && Enabled(s, e) && (e.Serve? || e.Block? || e.Wake? || e.SocketReady?)
    ensures InStep(Step(s, e)) && Step(s, e).open
  {
    match e
    case Serve(status, body) => ServeInStep(s, status, body);
    case Block => BlockInStep(s);
    case Wake(status, body) => WakeInStep(s, status, body);
    case SocketReady => SocketReadyIsCancel(s); CancelInPollInStep(s);
  }

  lemma ReplyInStep(s: System, e: Event)
    requires Basic(s) && InStep(s) && Enabled(s, e) && (e.ReadHeader? || e.ReadBody?)
    ensures if Slips(s, e) then OutOfStep(Step(s, e)) else InStep(Step(s, e))
    ensures Step(s, e).open
  {
    match e
    case ReadHeader(enc) => HeaderInStep(s, enc);
    case ReadBody(n, enc) => BodyInStep(s, n, enc);
  }

  lemma AskInStep(s: System, e: Event)
    requires Basic(s) && InStep(s) && Enabled(s, e) && (e.CallPlain? || e.BeginPoll? || e.CancelPoll?)
    ensures if Slips(s, e) then OutOfStep(Step(s, e)) else InStep(Step(s, e))
    ensures Step(s, e).open
  {
    match e
    case CallPlain(k, enc) => CallInStep(s, k, enc);
    case BeginPoll(timeout) => BeginPollInStep(s, timeout);
    case CancelPoll => CancelPollInStep(s);
  }

  lemma StepInStep(s: System, e: Event)
    requires Basic(s) && InStep(s) && Enabled(s, e)
    ensures if Slips(s, e) then OutOfStep(Step(s, e)) else InStep(Step(s, e))
    ensures e.Shutdown? || Step(s, e).open
  {
    if e.Serve? || e.Block? || e.Wake? || e.SocketReady? {
      ServerInStep(s, e);
    } else if e.ReadHeader? || e.ReadBody? {
      ReplyInStep(s, e);
    } else if e.CallPlain? || e.BeginPoll? || e.CancelPoll? {
      AskInStep(s, e);
    } else {
      QuietInStep(s, e);
    }
  }

  /**
   Exactness: from a state in step, an event leaves the two sides in step if and only if it is
   not one of the two slips, and a slip always shows in the number of replies due.
   */
  lemma InStepUnlessSlip(s: System, e: Event)
    requires Basic(s) && InStep(s) && Enabled(s, e)
    ensures InStep(Step(s, e)) <==> !Slips(s, e)
    ensures OutOfStep(Step(s, e)) <==> Slips(s, e)
  {
    StepInStep(s, e);
  }
}
