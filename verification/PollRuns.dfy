/** What the request/reply protocol guarantees over whole runs, and the runs that break it. */
module PollRuns {
  import opened Bytes
  import opened IpcDefs
  import opened PollProtocol

  lemma FinishMonotone(s: System, call: Call, status: nat, len: nat, enc: Encoding)
    requires Fits(s, enc)
    ensures var t := Finish(s, call, status, len, enc);
            s.badCancels <= t.badCancels && s.badPolls <= t.badPolls && s.overReads <= t.overReads
  {
  }

  lemma ReadMonotone(s: System, e: Event)
    requires Enabled(s, e) && (e.ReadHeader? || e.ReadBody?)
    ensures var t := Step(s, e);
            s.badCancels <= t.badCancels && s.badPolls <= t.badPolls && s.overReads <= t.overReads
  {
    match e
    case ReadHeader(enc) =>
      if ReplyLength(s.s2c) == 0 { FinishMonotone(TakeHeader(s), s.client.call, ReplyStatus(s.s2c), 0, enc); }
    case ReadBody(n, enc) =>
      if s.client.got + n >= s.client.len {
        FinishMonotone(TakeBody(s, n), s.client.call, s.client.status, s.client.len, enc);
      }
  }

  lemma StepMonotone(s: System, e: Event)
    requires Enabled(s, e)
    ensures var t := Step(s, e);
            s.badCancels <= t.badCancels && s.badPolls <= t.badPolls && s.overReads <= t.overReads
  {
    if e.ReadHeader? || e.ReadBody? { ReadMonotone(s, e); }
  }

  lemma {:induction false} RunMonotone(s: System, es: seq<Event>)
    requires IsRun(s, es)
    ensures var t := After(s, es);
            s.badCancels <= t.badCancels && s.badPolls <= t.badPolls && s.overReads <= t.overReads
    decreases |es|
  {
    if es != [] {
      StepMonotone(s, es[0]);
      RunMonotone(Step(s, es[0]), es[1..]);
    }
  }

  lemma InitHolds(s: System)
    requires Initial(s)
    ensures Basic(s) && Balanced(s) && InStep(s)
  {
  }

  lemma {:induction false} RunBasic(s: System, es: seq<Event>)
    requires Basic(s) && IsRun(s, es)
    ensures Basic(After(s, es))
    decreases |es|
  {
    if es != [] {
      StepBasic(s, es[0]);
      RunBasic(Step(s, es[0]), es[1..]);
    }
  }

  lemma {:induction false} RunBalanced(s: System, es: seq<Event>)
    requires Basic(s) && Balanced(s) && IsRun(s, es) && After(s, es).overReads == 0
    ensures Balanced(After(s, es))
    decreases |es|
  {
    if es != [] {
      RunMonotone(s, es);
      StepBasic(s, es[0]);
      StepBalanced(s, es[0]);
      RunBalanced(Step(s, es[0]), es[1..]);
    }
  }

  /** A step that slips is counted. */
  lemma SlipCounts(s: System, e: Event)
    requires Enabled(s, e) && Slips(s, e)
    ensures Step(s, e).badCancels + Step(s, e).badPolls == s.badCancels + s.badPolls + 1
  {
  }

  lemma {:induction false} RunInStep(s: System, es: seq<Event>)
    requires Basic(s) && InStep(s) && IsRun(s, es)
    requires After(s, es).badCancels == s.badCancels && After(s, es).badPolls == s.badPolls
    ensures InStep(After(s, es))
    ensures s.open && Shutdown !in es ==> After(s, es).open
    decreases |es|
  {
    if es != [] {
      var t := Step(s, es[0]);
      StepMonotone(s, es[0]);
      RunMonotone(t, es[1..]);
      if Slips(s, es[0]) { SlipCounts(s, es[0]); }
      StepBasic(s, es[0]);
      StepInStep(s, es[0]);
      RunInStep(t, es[1..]);
    }
  }

  // ---------------------------------------------------------------- main results

  /**
   Framing and byte accounting, for every run: each stream is a sequence of whole frames (up to
   a body being read), and what one side has sent is what the other has received plus what is
   in flight.
   */
  lemma StreamsStayFramed(s: System, es: seq<Event>)
    requires Initial(s) && IsRun(s, es)
    ensures var t := After(s, es);
            && RequestsWellFormed(t) && AnswersWellFormed(t)
            && (t.overReads == 0 ==> RepliesAligned(t))
            && t.clientSent == t.serverRcvd + |t.c2s|
            && t.serverSent == t.clientRcvd + |t.s2c|
  {
    InitHolds(s);
    RunBasic(s, es);
  }

  /**
   The ledger, for every run in which no read has run past its frame: requests sent minus
   replies read is what the client's own state expects, plus one for every cancel that gave up
   on its first reply, minus one for every begin-poll that set the flag without sending.
   */
  lemma Ledger(s: System, es: seq<Event>)
    requires Initial(s) && IsRun(s, es) && After(s, es).overReads == 0
    ensures var t := After(s, es);
            t.sent - t.read == |Expected(t)| + t.badCancels - t.badPolls
  {
    InitHolds(s);
    RunBalanced(s, es);
  }

  /**
   Synchronisation: without those two slips, between calls exactly one reply is due while
   `in_poll` is set and none otherwise, whichever way cancels and poll replies cross; no read
   ever runs past its frame; and the server drops the session only when told to.
   */
  lemma Synchronised(s: System, es: seq<Event>)
    requires Initial(s) && IsRun(s, es)
    requires After(s, es).badCancels == 0 && After(s, es).badPolls == 0
    ensures var t := After(s, es);
            && Outstanding(t) == Expected(t)
            && (t.client.Ready? ==> t.sent - t.read == if t.inPoll then 1 else 0)
            && t.overReads == 0
            && (Shutdown !in es ==> t.open)
  {
    InitHolds(s);
    RunInStep(s, es);
    RunMonotone(s, es);
    RunBalanced(s, es);
  }

  /** A read of the body loop can take `n` bytes, and they go beyond the body. */
  predicate OverReads(t: System, n: nat)
    requires t.client.AwaitBody?
  {
    1 <= n <= |t.s2c| && 8 + t.client.got + n <= MAX_API_MSG && t.client.got + n > t.client.len
  }

  ghost predicate CanOverRead(t: System)
    requires t.client.AwaitBody?
  {
    exists n: nat :: OverReads(t, n)
  }

  lemma CanOverReadIff(t: System)
    requires t.client.AwaitBody? && t.client.got < t.client.len <= MAX_BODY && t.client.len - t.client.got <= |t.s2c|
    ensures CanOverRead(t) <==> |t.s2c| > t.client.len - t.client.got && t.client.len < MAX_BODY
  {
    if |t.s2c| > t.client.len - t.client.got && t.client.len < MAX_BODY {
      assert OverReads(t, t.client.len - t.client.got + 1);
    }
  }

  /**
   When a body read is safe, exactly, over every run without over-read so far: the stream holds
   nothing but the rest of the body if and only if no other answer is in flight, and only then, or
   for a body that fills the buffer, can no read run past its frame. And nothing else is due at all
   if and only if what the client expects, plus the failed cancels, is one more than the begin-polls
   never sent.
   */
  lemma BodyReadSafety(s: System, es: seq<Event>)
    requires Initial(s) && IsRun(s, es)
    requires After(s, es).client.AwaitBody? && After(s, es).overReads == 0
    ensures var t := After(s, es);
            && (|t.s2c| == t.client.len - t.client.got <==> t.answers == [])
            && (CanOverRead(t) <==> t.answers != [] && t.client.len < MAX_BODY)
            && (Outstanding(t) == [t.client.kind] <==> |Expected(t)| + t.badCancels == t.badPolls + 1)
  {
    InitHolds(s);
    RunBasic(s, es);
    RunBalanced(s, es);
    var t := After(s, es);
    RestAlone(t);
    CanOverReadIff(t);
    assert Outstanding(t)[0] == t.client.kind;
  }

  lemma RestAlone(t: System)
    requires Basic(t) && t.overReads == 0 && t.client.AwaitBody?
    ensures t.client.got < t.client.len <= MAX_BODY && t.client.len - t.client.got <= |t.s2c|
    ensures |t.s2c| == t.client.len - t.client.got <==> t.answers == []
  {
    if t.answers != [] {
      assert Replies(t.answers) != [];
      assert |ReplyFrame(Replies(t.answers)[0])| >= 8;
    }
  }

  /**
   Over-read safety: in such a run, whenever a body is being read the stream holds nothing but
   the rest of that body, so asking for all remaining buffer space cannot reach a later reply.
   */
  lemma NoOverRead(s: System, es: seq<Event>, n: nat, enc: Encoding)
    requires Initial(s) && IsRun(s, es)
    requires After(s, es).badCancels == 0 && After(s, es).badPolls == 0
    requires Enabled(After(s, es), ReadBody(n, enc))
    ensures var t := After(s, es);
            |t.s2c| == t.client.len - t.client.got && t.client.got + n <= t.client.len
  {
    InitHolds(s);
    RunInStep(s, es);
    RunBasic(s, es);
    BodyAlone(After(s, es));
  }

  /**
   Which header a plain call finds, exactly: over every run without over-read, it is the header of
   the oldest of the replies due, and as many others are due as cancels failed more often than
   begin-polls. It is the only one due, and so the call's own, if and only if the two are equal.
   */
  lemma HeaderFound(s: System, es: seq<Event>, enc: Encoding)
    requires Initial(s) && IsRun(s, es) && After(s, es).overReads == 0
    requires Enabled(After(s, es), ReadHeader(enc)) && After(s, es).client.call.Plain?
    ensures var t := After(s, es); var due := Outstanding(t);
            && t.answers != [] && due != [] && due[0] == t.answers[0].kind
            && ReplyStatus(t.s2c) == t.answers[0].reply.status && ReplyLength(t.s2c) == |t.answers[0].reply.body|
            && |due| - 1 == t.badCancels - t.badPolls
            && (|due| == 1 <==> t.badCancels == t.badPolls)
  {
    InitHolds(s);
    RunBasic(s, es);
    RunBalanced(s, es);
    var t := After(s, es);
    HeaderOutstanding(t);
    FrontAnswer(t);
    assert Expected(t) == [t.client.call.kind];
  }

  /** Without slips a plain call that finds a header finds its own, alone on the stream. */
  lemma OwnHeader(s: System, es: seq<Event>, enc: Encoding)
    requires Initial(s) && IsRun(s, es)
    requires After(s, es).badCancels == 0 && After(s, es).badPolls == 0
    requires Enabled(After(s, es), ReadHeader(enc)) && After(s, es).client.call.Plain?
    ensures var t := After(s, es);
            && |t.answers| == 1 && t.answers[0].kind == t.client.call.kind
            && FramableReply(t.answers[0].reply) && t.s2c == ReplyFrame(t.answers[0].reply) && t.server.Idle? && t.c2s == []
  {
    InitHolds(s);
    RunInStep(s, es);
    RunBasic(s, es);
    var t := After(s, es);
    HeaderOutstanding(t);
    assert Outstanding(t)[0] == t.answers[0].kind && Expected(t) == [t.client.call.kind];
    assert |Outstanding(t)| == |t.answers| + (if t.server.Idle? then 0 else 1) + |t.reqs|;
    assert Replies(t.answers) == [t.answers[0].reply];
    assert ReplyBytes([t.answers[0].reply]) == ReplyFrame(t.answers[0].reply) + ReplyBytes([]);
  }

  /** Something that can still bring the client a reply: a request, a blocked handler or a reply. */
  predicate OnItsWay(t: System) {
    RequestAvailable(t) || !t.server.Idle? || |t.s2c| >= 8
  }

  lemma OnItsWayIff(t: System)
    requires Basic(t) && t.overReads == 0 && !t.client.AwaitBody?
    ensures OnItsWay(t) <==> Outstanding(t) != []
  {
    assert |Outstanding(t)| == |t.answers| + (if t.server.Idle? then 0 else 1) + |t.reqs|;
    if t.reqs != [] {
      assert t.c2s == RequestFrame(t.reqs[0]) + RequestBytes(t.reqs[1..]);
      FrontRequest(t);
    }
    if t.answers != [] {
      assert Replies(t.answers) != [];
    }
  }

  /**
   When a waiting client waits in vain, exactly: over every run without over-read there is
   something on its way if and only if what the client expects, plus the failed cancels, outnumbers
   the begin-polls that were never sent.
   */
  lemma NoDeadlock(s: System, es: seq<Event>)
    requires Initial(s) && IsRun(s, es)
    requires After(s, es).client.AwaitHeader? && After(s, es).overReads == 0
    ensures var t := After(s, es);
            OnItsWay(t) <==> |Expected(t)| + t.badCancels > t.badPolls
  {
    InitHolds(s);
    RunBasic(s, es);
    RunBalanced(s, es);
    OnItsWayIff(After(s, es));
  }

  // ---------------------------------------------------------------- runs that slip

  lemma {:induction false} RunAppend(s: System, es: seq<Event>, e: Event)
    requires IsRun(s, es) && Enabled(After(s, es), e)
    ensures IsRun(s, es + [e]) && After(s, es + [e]) == Step(After(s, es), e)
    decreases |es|
  {
    if es != [] {
      RunAppend(Step(s, es[0]), es[1..], e);
      assert (es + [e])[1..] == es[1..] + [e];
    } else {
      assert IsRun(Step(s, e), []);
      assert (es + [e])[1..] == [];
    }
  }

  /** Extends a run by one event. */
  lemma Do(s: System, es: seq<Event>, e: Event) returns (more: seq<Event>)
    requires Basic(s) && IsRun(s, es) && Enabled(After(s, es), e)
    ensures more == es + [e] && IsRun(s, more) && After(s, more) == Step(After(s, es), e)
    ensures Basic(After(s, more))
  {
    more := es + [e];
    RunAppend(s, es, e);
    RunBasic(s, more);
  }

  /** A quiet moment: no handler is blocked and the encoder is empty. */
  predicate At(t: System, c: Client, inPoll: bool, answers: seq<Answer>, reqs: seq<Request>, bad: nat) {
    && t.open && t.client == c && t.inPoll == inPoll && t.residue == [] && t.server.Idle?
    && t.answers == answers && t.reqs == reqs
    && t.badCancels == bad && t.badPolls == 0 && t.overReads == 0
  }

  lemma DoPlain(s: System, es: seq<Event>, k: Byte, answers: seq<Answer>, bad: nat) returns (more: seq<Event>)
    requires Basic(s) && IsRun(s, es) && PlainKind(k) && At(After(s, es), Ready, false, answers, [], bad)
    ensures IsRun(s, more)
    ensures At(After(s, more), AwaitHeader(Plain(k)), false, answers, [Request(k, [])], bad)
  {
    more := Do(s, es, CallPlain(k, Encoded([])));
  }

  lemma DoServe(s: System, es: seq<Event>, c: Client, p: bool, answers: seq<Answer>, q: Request,
                reply: Reply, bad: nat) returns (more: seq<Event>)
    requires Basic(s) && IsRun(s, es) && At(After(s, es), c, p, answers, [q], bad)
    requires PlainKind(q.kind) || PollKind(q.kind)
    requires ImmediateAnswer(q.kind, reply.status, reply.body)
    ensures IsRun(s, more)
    ensures At(After(s, more), c, p, answers + [Answer(q.kind, reply)], [], bad)
  {
    var t := After(s, es);
    RunBasic(s, es);
    assert RequestBytes(t.reqs) == RequestFrame(q) + RequestBytes([]);
    FrontRequest(t);
    more := Do(s, es, Serve(reply.status, reply.body));
  }

  lemma DoHeader(s: System, es: seq<Event>, call: Call, a: Answer, answers: seq<Answer>, reqs: seq<Request>, bad: nat)
    returns (more: seq<Event>)
    requires Basic(s) && IsRun(s, es) && !call.Prologue?
    requires At(After(s, es), AwaitHeader(call), false, [a] + answers, reqs, bad)
    ensures IsRun(s, more)
    ensures At(After(s, more),
               if a.reply.body != [] then AwaitBody(call, a.reply.status, |a.reply.body|, 0, a.kind)
               else if call.CancelFirst? && a.reply.status == SUCCESS then AwaitHeader(CancelSecond)
               else Ready,
               false, answers, reqs,
               if a.reply.body == [] && call.CancelFirst? && a.reply.status != SUCCESS then bad + 1 else bad)
  {
    RunBasic(s, es);
    AnswersGiveHeader(After(s, es));
    more := Do(s, es, ReadHeader(Encoded([])));
  }

  lemma AnswersGiveHeader(s: System)
    requires Basic(s) && s.overReads == 0 && !s.client.AwaitBody? && s.answers != []
    ensures |s.s2c| >= 8
    ensures ReplyStatus(s.s2c) == s.answers[0].reply.status
    ensures ReplyLength(s.s2c) == |s.answers[0].reply.body|
  {
    assert Replies(s.answers) != [];
    FrontAnswer(s);
  }

  const LATE := Answer(CANCEL_POLL, Reply(SUCCESS, []))

  /**
   The smallest slip: a poll times out, its cancel is served as well, and the cancel call reads
   the poll's ETIMEOUT first. It returns with one reply unread and no poll in progress.
   */
  lemma TimedOutCancelSlips(s: System) returns (es: seq<Event>)
    requires Initial(s)
    ensures IsRun(s, es) && At(After(s, es), Ready, false, [LATE], [], 1)
    ensures After(s, es).sent - After(s, es).read == 1
  {
    InitHolds(s);
    es := Do(s, [], BeginPoll([0, 0, 0, 0]));
    var q := After(s, es).reqs[0];
    es := DoServe(s, es, Ready, true, [], q, Reply(ETIMEOUT, []), 0);
    var timedOut := Answer(BEGIN_POLL, Reply(ETIMEOUT, []));
    es := Do(s, es, CancelPoll);
    es := DoServe(s, es, AwaitHeader(CancelFirst), false, [timedOut], Request(CANCEL_POLL, []), Reply(SUCCESS, []), 0);
    es := DoHeader(s, es, CancelFirst, timedOut, [LATE], [], 0);
    RunBalanced(s, es);
  }

  /** A send whose arguments end one word past the buffer. */
  const TOO_LONG: Encoding := Failed(seq(MAX_BODY + 4, _ => 0), MAX_BODY)

  /** A failed send leaves the encoder full, and the begin-poll after it sets the flag without sending. */
  lemma PollUnsent(s: System) returns (es: seq<Event>)
    requires Initial(s)
    ensures IsRun(s, es) && Basic(After(s, es))
    ensures var t := After(s, es);
            && t.open && t.client.Ready? && t.inPoll && t.server.Idle? && |t.residue| == MAX_BODY
            && t.reqs == [] && t.answers == [] && t.badPolls == 1 && t.badCancels == 0 && t.overReads == 0
  {
    InitHolds(s);
    es := Do(s, [], CallPlain(SEND, TOO_LONG));
    es := Do(s, es, BeginPoll([0, 0, 0, 0]));
  }

  /**
   The other slip: the cancel of such a poll waits for two replies where one is due. The connection
   stays open and nothing but its end can happen any more.
   */
  lemma FullEncoderDeadlocks(s: System) returns (es: seq<Event>)
    requires Initial(s)
    ensures IsRun(s, es)
    ensures var t := After(s, es);
            && t.open && t.client == AwaitHeader(CancelSecond) && !OnItsWay(t)
            && t.badPolls == 1 && t.badCancels == 0 && t.overReads == 0
            && (forall e :: Enabled(t, e) ==> e.Shutdown?)
  {
    InitHolds(s);
    es := PollUnsent(s);
    es := Do(s, es, CancelPoll);
    es := CancelAnswered(s, es, After(s, es).reqs[0]);
    OnItsWayIff(After(s, es));
  }

  /** A cancel call waits for its first reply, and nothing but what these lists hold is in flight. */
  predicate Cancelling(t: System, answers: seq<Answer>, reqs: seq<Request>) {
    && t.open && t.client == AwaitHeader(CancelFirst) && t.server.Idle? && !t.inPoll
    && t.residue == [] && t.answers == answers && t.reqs == reqs && t.overReads == 0
  }

  lemma CancelServed(s: System, es: seq<Event>, q: Request) returns (more: seq<Event>)
    requires Basic(s) && IsRun(s, es) && Cancelling(After(s, es), [], [q]) && q.kind == CANCEL_POLL
    ensures IsRun(s, more) && Basic(After(s, more)) && Cancelling(After(s, more), [LATE], [])
    ensures var t, u := After(s, es), After(s, more); u.badPolls == t.badPolls && u.badCancels == t.badCancels
  {
    var t := After(s, es);
    RunBasic(s, es);
    assert t.c2s == RequestFrame(t.reqs[0]) + RequestBytes(t.reqs[1..]);
    FrontRequest(t);
    more := Do(s, es, Serve(SUCCESS, []));
  }

  /** With a lone cancel on the stream: it is served, and its answer read as the poll's. */
  lemma CancelAnswered(s: System, es: seq<Event>, q: Request) returns (more: seq<Event>)
    requires Basic(s) && IsRun(s, es) && Cancelling(After(s, es), [], [q]) && q.kind == CANCEL_POLL
    ensures IsRun(s, more) && Basic(After(s, more))
    ensures var t, u := After(s, es), After(s, more);
            && u.open && u.client == AwaitHeader(CancelSecond) && Outstanding(u) == []
            && u.badPolls == t.badPolls && u.badCancels == t.badCancels && u.overReads == 0
  {
    more := CancelServed(s, es, q);
    AnswersGiveHeader(After(s, more));
    more := Do(s, more, ReadHeader(Encoded([])));
  }

  const SEND_ANSWER := Answer(SEND, Reply(SUCCESS, [7]))
  const EID_ANSWER := Answer(LOCAL_EID, Reply(SUCCESS, [8]))

  /** A call made after the slip is answered, but finds the late reply first and takes that one. */
  lemma OneBehind(s: System, es: seq<Event>) returns (more: seq<Event>)
    requires Basic(s) && IsRun(s, es) && At(After(s, es), Ready, false, [LATE], [], 1)
    ensures IsRun(s, more) && At(After(s, more), Ready, false, [SEND_ANSWER], [], 1)
  {
    more := DoPlain(s, es, SEND, [LATE], 1);
    more := DoServe(s, more, AwaitHeader(Plain(SEND)), false, [LATE], Request(SEND, []), SEND_ANSWER.reply, 1);
    more := DoHeader(s, more, Plain(SEND), LATE, [SEND_ANSWER], [], 1);
  }

  /** The next call starts on the body of that call's answer, with its own answer behind it. */
  lemma TwoBehind(s: System, es: seq<Event>) returns (more: seq<Event>)
    requires Basic(s) && IsRun(s, es) && At(After(s, es), Ready, false, [SEND_ANSWER], [], 1)
    ensures IsRun(s, more)
    ensures At(After(s, more), AwaitBody(Plain(LOCAL_EID), SUCCESS, 1, 0, SEND), false, [EID_ANSWER], [], 1)
  {
    more := DoPlain(s, es, LOCAL_EID, [SEND_ANSWER], 1);
    more := DoServe(s, more, AwaitHeader(Plain(LOCAL_EID)), false, [SEND_ANSWER], Request(LOCAL_EID, []), EID_ANSWER.reply, 1);
    more := DoHeader(s, more, Plain(LOCAL_EID), SEND_ANSWER, [EID_ANSWER], [], 1);
  }

  /**
   Why the slip matters: two calls later each call is answered with its predecessor's reply, and
   a body read that takes all it is offered swallows the whole of the next reply.
   */
  lemma SlipLeadsToOverRead(s: System) returns (es: seq<Event>)
    requires Initial(s)
    ensures IsRun(s, es) && After(s, es).badCancels == 1 && After(s, es).badPolls == 0
    ensures After(s, es).overReads == 1 && After(s, es).s2c == [] && After(s, es).answers != []
  {
    InitHolds(s);
    es := TimedOutCancelSlips(s);
    es := OneBehind(s, es);
    es := TwoBehind(s, es);
    var t := After(s, es);
    RunBasic(s, es);
    assert Replies(t.answers) == [EID_ANSWER.reply];
    assert ReplyBytes([EID_ANSWER.reply]) == ReplyFrame(EID_ANSWER.reply) + ReplyBytes([]);
    es := Do(s, es, ReadBody(|t.s2c|, Encoded([])));
  }
}
