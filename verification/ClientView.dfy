/**
 The protocol as one side of it sees it. A `View` is what a client handle knows: its poll flag, what
 its encoder holds, and the two byte streams. `Plays` says that a handle's call went through certain
 events of the protocol; `WholeRun` and `CanFinish` connect that with runs of the whole system, in
 which the daemon's steps come between. The last section does the same for the daemon's end.
 */
module ClientView {
  import opened Bytes
  import opened IpcDefs
  import opened PollProtocol
  import opened PollRuns

  /** `incoming` is every byte still to be read, `outgoing` every byte written so far. */
  datatype View = View(inPoll: bool, residue: seq<Byte>, incoming: seq<Byte>, outgoing: seq<Byte>,
                       requests: nat, replies: nat)

  /** A client between calls, with everything that will reach it already on its stream. */
  function Alone(v: View): (s: System) {
    System(true, Ready, v.inPoll, v.residue, Idle, v.outgoing, v.incoming, 0, 0, 0, 0, [], [],
           v.requests, v.replies, 0, 0, 0)
  }

  function ViewOf(s: System): (v: View) {
    View(s.inPoll, s.residue, s.s2c, s.c2s, s.sent, s.read)
  }

  /** The client's events `es` lead from one view, between calls, to another. */
  predicate Plays(v: View, es: seq<Event>, u: View) {
    && IsRun(Alone(v), es)
    && After(Alone(v), es).open && After(Alone(v), es).client.Ready?
    && ViewOf(After(Alone(v), es)) == u
    && forall e :: e in es ==> OfClient(e)
  }

  predicate OfClient(e: Event) {
    e.Rejected? || e.CallPlain? || e.BeginPoll? || e.CancelPoll? || e.CallInPoll? || e.ReadHeader? || e.ReadBody?
  }

  // ---------------------------------------------------------------- what a call does

  /** One reply has been read off `before`, and perhaps some of what follows its body. */
  predicate Received(before: seq<Byte>, after: seq<Byte>) {
    && |before| >= 8
    && |before| - MAX_API_MSG <= |after| <= |before| - 8 - ReplyLength(before)
    && after == before[|before| - |after|..]
    && (ReplyLength(before) == 0 ==> |after| == |before| - 8)
  }

  /** What the encoder holds once that reply stands in the buffer they share. */
  function Overlaid(residue: seq<Byte>, before: seq<Byte>, after: seq<Byte>): (r: seq<Byte>)
    requires Received(before, after)
    ensures |r| == |residue|
    ensures ReplyLength(before) == 0 ==> r == residue
  {
    Overwritten(residue, 0, before[8..|before| - |after|])
  }

  /** `data` stored over the front of `was`. */
  function Laid(was: seq<Byte>, data: seq<Byte>): (r: seq<Byte>)
    requires |data| <= |was|
    ensures |r| == |was|
  {
    data + was[|data|..]
  }

  /** Header and body have come off the stream, and the body has been laid over the buffer. */
  lemma ReplyTaken(was: seq<Byte>, now: seq<Byte>, k: nat, before: seq<Byte>, after: seq<Byte>)
    requires |before| >= 8 && |before| - 8 - MAX_BODY <= |after| <= |before| - 8 - ReplyLength(before)
    requires after == before[8..][|before| - 8 - |after|..] && (ReplyLength(before) == 0 ==> after == before[8..])
    requires |was| == MAX_BODY && k <= |was| && now == Laid(was, before[8..][..|before| - 8 - |after|])
    ensures Received(before, after) && now[..k] == Overlaid(was[..k], before, after)
    ensures now[..ReplyLength(before)] == before[8..8 + ReplyLength(before)]
  {
    assert before[8..][..|before| - 8 - |after|] == before[8..|before| - |after|];
  }

  /** The reads that took it. */
  function Reading(before: seq<Byte>, after: seq<Byte>, enc: Encoding): (es: seq<Event>)
    requires Received(before, after)
  {
    if ReplyLength(before) == 0 then [ReadHeader(enc)]
    else [ReadHeader(Encoded([])), ReadBody(|before| - |after| - 8, enc)]
  }

  /** How many bytes of these items go into an encoder with that much room. */
  function Packed(room: nat, chunks: seq<seq<Byte>>): (n: nat)
    ensures n <= room
  {
    if chunks == [] || |chunks[0]| > room then 0 else |chunks[0]| + Packed(room - |chunks[0]|, chunks[1..])
  }

  function Concat(chunks: seq<seq<Byte>>): (r: seq<Byte>) {
    if chunks == [] then [] else chunks[0] + Concat(chunks[1..])
  }

  lemma {:induction false} PackedAll(room: nat, chunks: seq<seq<Byte>>)
    ensures Packed(room, chunks) <= |Concat(chunks)|
    ensures Packed(room, chunks) == |Concat(chunks)| <==> |Concat(chunks)| <= room
  {
    if chunks != [] && |chunks[0]| <= room {
      PackedAll(room - |chunks[0]|, chunks[1..]);
    }
  }

  /** After `i` items, `n` bytes of the arguments are in an encoder that had that much room. */
  predicate PackedSoFar(room: nat, chunks: seq<seq<Byte>>, i: nat, n: nat) {
    && i <= |chunks| && n <= room && n <= |Concat(chunks)|
    && Concat(chunks)[n..] == Concat(chunks[i..])
    && n + Packed(room - n, chunks[i..]) == Packed(room, chunks)
  }

  lemma PackOneMore(room: nat, chunks: seq<seq<Byte>>, i: nat, n: nat)
    requires PackedSoFar(room, chunks, i, n) && i < |chunks|
    ensures |chunks[i]| > room - n ==> Packed(room, chunks) == n && |Concat(chunks)| > room
    ensures |chunks[i]| <= room - n ==>
      PackedSoFar(room, chunks, i + 1, n + |chunks[i]|)
      && Concat(chunks)[..n] + chunks[i] == Concat(chunks)[..n + |chunks[i]|]
  {
    var args, rest := Concat(chunks), chunks[i..];
    assert rest[0] == chunks[i] && rest[1..] == chunks[i + 1..];
    assert args == args[..n] + (chunks[i] + Concat(rest[1..]));
  }

  function Encode(residue: seq<Byte>, chunks: seq<seq<Byte>>): (enc: Encoding)
    requires |residue| <= MAX_BODY
  {
    var args := Concat(chunks);
    if |residue| + |args| <= MAX_BODY then Encoded(args) else Failed(args, Packed(MAX_BODY - |residue|, chunks))
  }

  lemma EncodeFits(s: System, chunks: seq<seq<Byte>>)
    requires |s.residue| <= MAX_BODY
    ensures Fits(s, Encode(s.residue, chunks))
  {
    PackedAll(MAX_BODY - |s.residue|, chunks);
  }

  /** The view after a send of what the encoder holds. */
  function Flushed(v: View, k: Byte): (u: View)
    requires |v.residue| <= MAX_BODY
  {
    v.(residue := [], outgoing := v.outgoing + RequestFrame(Request(k, v.residue)), requests := v.requests + 1)
  }

  /** And after one of that and these arguments. */
  function Sent(v: View, k: Byte, args: seq<Byte>): (u: View)
    requires |v.residue| + |args| <= MAX_BODY
  {
    Flushed(v.(residue := v.residue + args), k)
  }

  function Replied(v: View, after: seq<Byte>): (u: View) {
    v.(incoming := after, replies := v.replies + 1)
  }

  lemma FirstThen(s: System, e: Event, rest: seq<Event>)
    requires Enabled(s, e) && IsRun(Step(s, e), rest)
    ensures IsRun(s, [e] + rest) && After(s, [e] + rest) == After(Step(s, e), rest)
  {
    assert ([e] + rest)[0] == e && ([e] + rest)[1..] == rest;
  }

  lemma {:induction false} RunsSplit(s: System, a: seq<Event>, b: seq<Event>)
    requires IsRun(s, a + b)
    ensures IsRun(s, a) && IsRun(After(s, a), b) && After(s, a + b) == After(After(s, a), b)
    decreases |a|
  {
    if a == [] {
      assert a + b == b;
    } else {
      assert (a + b)[1..] == a[1..] + b;
      RunsSplit(Step(s, a[0]), a[1..], b);
    }
  }

  /** From `s` the events `es` lead to `t`, and any run can go on from there. */
  ghost predicate Leads(s: System, es: seq<Event>, t: System) {
    forall more :: IsRun(t, more) ==> IsRun(s, es + more) && After(s, es + more) == After(t, more)
  }

  lemma OneEvent(s: System, e: Event)
    requires Enabled(s, e)
    ensures Leads(s, [e], Step(s, e))
  {
    forall more | IsRun(Step(s, e), more) ensures IsRun(s, [e] + more) && After(s, [e] + more) == After(Step(s, e), more) {
      FirstThen(s, e, more);
    }
  }

  lemma LeadsOn(s: System, a: seq<Event>, t: System, b: seq<Event>, x: System)
    requires Leads(s, a, t) && Leads(t, b, x)
    ensures Leads(s, a + b, x)
  {
    forall more | IsRun(x, more) ensures IsRun(s, a + b + more) && After(s, a + b + more) == After(x, more) {
      assert IsRun(t, b + more) && a + (b + more) == a + b + more;
    }
  }

  lemma {:induction false} RunLeads(s: System, es: seq<Event>)
    requires IsRun(s, es)
    ensures Leads(s, es, After(s, es))
    decreases |es|
  {
    if es == [] {
      forall more | IsRun(s, more) ensures es + more == more { }
    } else {
      OneEvent(s, es[0]);
      RunLeads(Step(s, es[0]), es[1..]);
      LeadsOn(s, [es[0]], Step(s, es[0]), es[1..], After(s, es));
      assert es == [es[0]] + es[1..];
    }
  }

  lemma Played(v: View, es: seq<Event>, t: System, u: View)
    requires Leads(Alone(v), es, t) && t.open && t.client.Ready? && ViewOf(t) == u
    requires forall e :: e in es ==> OfClient(e)
    ensures Plays(v, es, u)
  {
    assert IsRun(t, []) && es + [] == es;
  }

  /** All that a call can tell of a state. */
  predicate Looks(t: System, client: Client, u: View) {
    t.open && t.client == client && ViewOf(t) == u
  }

  lemma HeaderRead(w: System) returns (t: System)
    requires w.open && w.client.AwaitHeader? && |w.residue| <= MAX_BODY && |w.s2c| >= 8 && ReplyLength(w.s2c) > 0
    ensures Leads(w, [ReadHeader(Encoded([]))], t)
    ensures t.client.AwaitBody? && t.client.call == w.client.call && t.client.got == 0
    ensures t.client.status == ReplyStatus(w.s2c) && t.client.len == ReplyLength(w.s2c)
    ensures Looks(t, t.client, ViewOf(w).(incoming := w.s2c[8..]))
  {
    OneEvent(w, ReadHeader(Encoded([])));
    t := Step(w, ReadHeader(Encoded([])));
  }

  /** What finishing a call shows. */
  function Finishing(v: View, call: Call, status: nat, len: nat, enc: Encoding): (u: View)
    requires |v.residue| <= MAX_BODY && Fits(Alone(v), enc)
  {
    ViewOf(Finish(Alone(v), call, status, len, enc))
  }

  function NextClient(v: View, call: Call, status: nat, len: nat, enc: Encoding): (c: Client)
    requires |v.residue| <= MAX_BODY && Fits(Alone(v), enc)
  {
    Finish(Alone(v), call, status, len, enc).client
  }

  lemma FinishLooks(w: System, v: View, call: Call, status: nat, len: nat, enc: Encoding)
    requires w.open && ViewOf(w) == v && |v.residue| <= MAX_BODY && Fits(w, enc)
    ensures Fits(Alone(v), enc)
    ensures Looks(Finish(w, call, status, len, enc), NextClient(v, call, status, len, enc), Finishing(v, call, status, len, enc))
  {
  }

  lemma BodyRead(w: System, n: nat, enc: Encoding) returns (t: System)
    requires w.open && w.client.AwaitBody? && w.client.got == 0 < w.client.len <= n <= |w.s2c| && n <= MAX_BODY
    requires |w.residue| <= MAX_BODY && Fits(w, enc)
    ensures Leads(w, [ReadBody(n, enc)], t)
    ensures var c, v := w.client, ViewOf(w).(incoming := w.s2c[n..], residue := Overwritten(w.residue, 0, w.s2c[..n]));
            Looks(t, NextClient(v, c.call, c.status, c.len, enc), Finishing(v, c.call, c.status, c.len, enc))
  {
    var c, v := w.client, ViewOf(w).(incoming := w.s2c[n..], residue := Overwritten(w.residue, 0, w.s2c[..n]));
    OneEvent(w, ReadBody(n, enc));
    t := Step(w, ReadBody(n, enc));
    FinishLooks(TakeBody(w, n), v, c.call, c.status, c.len, enc);
  }

  lemma EmptyReplyRead(w: System, enc: Encoding) returns (t: System)
    requires w.open && w.client.AwaitHeader? && |w.residue| <= MAX_BODY && Fits(w, enc)
    requires |w.s2c| >= 8 && ReplyLength(w.s2c) == 0
    ensures Leads(w, [ReadHeader(enc)], t)
    ensures var v, call, status := ViewOf(w).(incoming := w.s2c[8..]), w.client.call, ReplyStatus(w.s2c);
            Looks(t, NextClient(v, call, status, 0, enc), Finishing(v, call, status, 0, enc))
  {
    OneEvent(w, ReadHeader(enc));
    t := Step(w, ReadHeader(enc));
    FinishLooks(TakeHeader(w), ViewOf(w).(incoming := w.s2c[8..]), w.client.call, ReplyStatus(w.s2c), 0, enc);
  }

  /** The view with a reply taken off the stream and put into the buffer. */
  function Taken(v: View, after: seq<Byte>): (u: View)
    requires Received(v.incoming, after)
  {
    v.(incoming := after, residue := Overlaid(v.residue, v.incoming, after))
  }

  lemma LongReplyRead(w: System, after: seq<Byte>, enc: Encoding) returns (t: System)
    requires w.open && w.client.AwaitHeader? && |w.residue| <= MAX_BODY && Fits(w, enc)
    requires Received(w.s2c, after) && ReplyLength(w.s2c) > 0
    ensures Leads(w, Reading(w.s2c, after, enc), t)
    ensures var v, call, status, len := Taken(ViewOf(w), after), w.client.call, ReplyStatus(w.s2c), ReplyLength(w.s2c);
            Looks(t, NextClient(v, call, status, len, enc), Finishing(v, call, status, len, enc))
  {
    var n := |w.s2c| - |after| - 8;
    var x := HeaderRead(w);
    assert w.s2c[8..][..n] == w.s2c[8..|w.s2c| - |after|] && w.s2c[8..][n..] == after;
    t := BodyRead(x, n, enc);
    LeadsOn(w, [ReadHeader(Encoded([]))], x, [ReadBody(n, enc)], t);
    assert Reading(w.s2c, after, enc) == [ReadHeader(Encoded([]))] + [ReadBody(n, enc)];
  }

  /** Reading one reply finishes what the client was waiting for. */
  lemma ReplyRead(w: System, v: View, call: Call, after: seq<Byte>, enc: Encoding) returns (t: System)
    requires Looks(w, AwaitHeader(call), v) && |v.residue| <= MAX_BODY && Received(v.incoming, after) && Fits(w, enc)
    ensures Leads(w, Reading(v.incoming, after, enc), t)
    ensures Fits(Alone(Taken(v, after)), enc)
    ensures var status, len := ReplyStatus(v.incoming), ReplyLength(v.incoming);
            Looks(t, NextClient(Taken(v, after), call, status, len, enc), Finishing(Taken(v, after), call, status, len, enc))
  {
    var status, len := ReplyStatus(v.incoming), ReplyLength(v.incoming);
    if len == 0 {
      t := EmptyReplyRead(w, enc);
    } else {
      t := LongReplyRead(w, after, enc);
    }
  }

  lemma Dispatched(v: View, k: Byte, enc: Encoding) returns (t: System)
    requires !v.inPoll && PlainKind(k) && Fits(Alone(v), enc)
    ensures Leads(Alone(v), [CallPlain(k, enc)], t)
    ensures enc.Encoded? ==> Looks(t, AwaitHeader(Plain(k)), Sent(v, k, enc.args))
    ensures enc.Failed? ==> Looks(t, Ready, v.(residue := v.residue + enc.args[..enc.written]))
  {
    OneEvent(Alone(v), CallPlain(k, enc));
    t := Step(Alone(v), CallPlain(k, enc));
  }

  lemma PollBegun(v: View, timeout: seq<Byte>) returns (t: System)
    requires !v.inPoll && |timeout| == 4
    ensures Leads(Alone(v), [BeginPoll(timeout)], t)
    ensures Looks(t, Ready, (if |v.residue| + 4 <= MAX_BODY then Sent(v, BEGIN_POLL, timeout) else v).(inPoll := true))
  {
    OneEvent(Alone(v), BeginPoll(timeout));
    t := Step(Alone(v), BeginPoll(timeout));
  }

  lemma CancelSent(v: View) returns (t: System)
    requires v.inPoll && |v.residue| <= MAX_BODY
    ensures Leads(Alone(v), [CancelPoll], t)
    ensures Looks(t, AwaitHeader(CancelFirst), Flushed(v, CANCEL_POLL).(inPoll := false))
  {
    OneEvent(Alone(v), CancelPoll);
    t := Step(Alone(v), CancelPoll);
  }

  lemma PrologueBegun(v: View, k: Byte) returns (t: System)
    requires v.inPoll && ReceivingKind(k)
    ensures Leads(Alone(v), [CallInPoll(k)], t) && Looks(t, AwaitHeader(Prologue(k)), v.(inPoll := false))
  {
    OneEvent(Alone(v), CallInPoll(k));
    t := Step(Alone(v), CallInPoll(k));
  }

  lemma TurnedAway(v: View)
    ensures Plays(v, [Rejected], v)
  {
    OneEvent(Alone(v), Rejected);
    Played(v, [Rejected], Alone(v), v);
  }

  // ---------------------------------------------------------------- outcomes of calls

  /** What packing these arguments leaves in the encoder when they do not fit. */
  function Leftover(residue: seq<Byte>, chunks: seq<seq<Byte>>): (r: seq<Byte>)
    requires |residue| <= MAX_BODY
  {
    PackedAll(MAX_BODY - |residue|, chunks);
    residue + Concat(chunks)[..Packed(MAX_BODY - |residue|, chunks)]
  }

  /** How a plain call can end with the connection still up. */
  predicate PlainOutcome(v: View, k: Byte, chunks: seq<seq<Byte>>, u: View)
    requires |v.residue| <= MAX_BODY
  {
    if v.inPoll then u == v
    else if |v.residue| + |Concat(chunks)| > MAX_BODY then u == v.(residue := Leftover(v.residue, chunks))
    else Received(v.incoming, u.incoming) && u == Replied(Sent(v, k, Concat(chunks)), u.incoming)
  }

  predicate BeginOutcome(v: View, timeout: seq<Byte>, u: View) {
    u == (if !v.inPoll && |v.residue| + |timeout| <= MAX_BODY then Sent(v, BEGIN_POLL, timeout) else v).(inPoll := true)
  }

  /** `first` is what is left on the stream after the first of the two replies. */
  predicate CancelOutcome(v: View, first: seq<Byte>, u: View)
    requires |v.residue| <= MAX_BODY
  {
    if !v.inPoll then u == v
    else
      && Received(v.incoming, first)
      && var w := Replied(Flushed(v, CANCEL_POLL), first).(inPoll := false);
      if ReplyStatus(v.incoming) != SUCCESS then u == w
      else Received(first, u.incoming) && u == Replied(w, u.incoming)
  }

  /** The poll's reply was an empty SUCCESS. */
  predicate CanGoOn(stream: seq<Byte>)
    requires |stream| >= 8
  {
    ReplyLength(stream) == 0 && ReplyStatus(stream) == SUCCESS
  }

  /** What collecting a poll's reply leaves. */
  function AfterPoll(v: View, first: seq<Byte>): (u: View)
    requires Received(v.incoming, first)
  {
    Replied(v, first).(inPoll := false, residue := Overlaid(v.residue, v.incoming, first))
  }

  predicate ReceivingOutcome(v: View, k: Byte, chunks: seq<seq<Byte>>, first: seq<Byte>, u: View)
    requires |v.residue| <= MAX_BODY
  {
    if !v.inPoll then PlainOutcome(v, k, chunks, u)
    else
      && Received(v.incoming, first)
      && if CanGoOn(v.incoming) then PlainOutcome(AfterPoll(v, first), k, chunks, u) else u == AfterPoll(v, first)
  }

  /** Each of these outcomes is that of a run of the protocol's client. */
  lemma PlainPlays(v: View, k: Byte, chunks: seq<seq<Byte>>, u: View) returns (es: seq<Event>)
    requires |v.residue| <= MAX_BODY && PlainKind(k) && PlainOutcome(v, k, chunks, u)
    ensures Plays(v, es, u)
  {
    if v.inPoll {
      es := [Rejected];
      TurnedAway(v);
      return;
    }
    var enc := Encode(v.residue, chunks);
    EncodeFits(Alone(v), chunks);
    es := [CallPlain(k, enc)];
    var t := Dispatched(v, k, enc);
    if enc.Failed? {
      Played(v, es, t, u);
    } else {
      var more := Reading(v.incoming, u.incoming, Encoded([]));
      var x := ReplyRead(t, Sent(v, k, enc.args), Plain(k), u.incoming, Encoded([]));
      LeadsOn(Alone(v), es, t, more, x);
      es := es + more;
      Played(v, es, x, u);
    }
  }

  lemma BeginPlays(v: View, timeout: seq<Byte>, u: View) returns (es: seq<Event>)
    requires |timeout| == 4 && BeginOutcome(v, timeout, u)
    ensures Plays(v, es, u)
  {
    if v.inPoll {
      es := [Rejected];
      TurnedAway(v);
    } else {
      es := [BeginPoll(timeout)];
      var t := PollBegun(v, timeout);
      Played(v, es, t, u);
    }
  }

  lemma CancelAsked(v: View, first: seq<Byte>) returns (es: seq<Event>, x: System)
    requires v.inPoll && |v.residue| <= MAX_BODY && Received(v.incoming, first)
    ensures Leads(Alone(v), es, x) && forall e :: e in es ==> OfClient(e)
    ensures Looks(x, if ReplyStatus(v.incoming) == SUCCESS then AwaitHeader(CancelSecond) else Ready,
                  Replied(Flushed(v, CANCEL_POLL), first).(inPoll := false))
  {
    var w, reading := Flushed(v, CANCEL_POLL).(inPoll := false), Reading(v.incoming, first, Encoded([]));
    var t := CancelSent(v);
    x := ReplyRead(t, w, CancelFirst, first, Encoded([]));
    LeadsOn(Alone(v), [CancelPoll], t, reading, x);
    es := [CancelPoll] + reading;
  }

  lemma CancelPlays(v: View, first: seq<Byte>, u: View) returns (es: seq<Event>)
    requires |v.residue| <= MAX_BODY && CancelOutcome(v, first, u)
    ensures Plays(v, es, u)
  {
    if !v.inPoll {
      es := [Rejected];
      TurnedAway(v);
      return;
    }
    var x;
    es, x := CancelAsked(v, first);
    if ReplyStatus(v.incoming) != SUCCESS {
      Played(v, es, x, u);
    } else {
      var more := Reading(first, u.incoming, Encoded([]));
      var y := ReplyRead(x, ViewOf(x), CancelSecond, u.incoming, Encoded([]));
      LeadsOn(Alone(v), es, x, more, y);
      es := es + more;
      Played(v, es, y, u);
    }
  }

  lemma PollCollected(v: View, k: Byte, first: seq<Byte>, enc: Encoding) returns (es: seq<Event>, x: System)
    requires v.inPoll && |v.residue| <= MAX_BODY && ReceivingKind(k) && Received(v.incoming, first) && Fits(Alone(v), enc)
    ensures Leads(Alone(v), es, x) && forall e :: e in es ==> OfClient(e)
    ensures var w := AfterPoll(v, first);
            if !CanGoOn(v.incoming) then Looks(x, Ready, w)
            else if enc.Encoded? then Looks(x, AwaitHeader(Plain(k)), Sent(w, k, enc.args))
            else Looks(x, Ready, w.(residue := w.residue + enc.args[..enc.written]))
  {
    var w, more := v.(inPoll := false), Reading(v.incoming, first, enc);
    var t := PrologueBegun(v, k);
    x := ReplyRead(t, w, Prologue(k), first, enc);
    PrologueEnds(Taken(w, first), k, ReplyStatus(v.incoming), ReplyLength(v.incoming), enc);
    LeadsOn(Alone(v), [CallInPoll(k)], t, more, x);
    es := [CallInPoll(k)] + more;
  }

  lemma PrologueEnds(w: View, k: Byte, status: nat, len: nat, enc: Encoding)
    requires |w.residue| <= MAX_BODY && Fits(Alone(w), enc) && !w.inPoll
    ensures var c, u := NextClient(w, Prologue(k), status, len, enc), Finishing(w, Prologue(k), status, len, enc);
            var r := w.(replies := w.replies + 1);
            if len != 0 || status != SUCCESS then c == Ready && u == r
            else if enc.Encoded? then c == AwaitHeader(Plain(k)) && u == Sent(r, k, enc.args)
            else c == Ready && u == r.(residue := w.residue + enc.args[..enc.written])
  {
  }

  lemma ReceivingPlays(v: View, k: Byte, chunks: seq<seq<Byte>>, first: seq<Byte>, u: View) returns (es: seq<Event>)
    requires |v.residue| <= MAX_BODY && ReceivingKind(k) && ReceivingOutcome(v, k, chunks, first, u)
    ensures Plays(v, es, u)
  {
    if !v.inPoll {
      es := PlainPlays(v, k, chunks, u);
      return;
    }
    var enc := Encode(v.residue, chunks);
    EncodeFits(Alone(v), chunks);
    var x;
    es, x := PollCollected(v, k, first, enc);
    if CanGoOn(v.incoming) && enc.Encoded? {
      var more := Reading(first, u.incoming, Encoded([]));
      var y := ReplyRead(x, ViewOf(x), Plain(k), u.incoming, Encoded([]));
      LeadsOn(Alone(v), es, x, more, y);
      es := es + more;
      Played(v, es, y, u);
    } else {
      Played(v, es, x, u);
    }
  }

  // ---------------------------------------------------------------- the whole system

  /** The type of request a body answers is known only to the model. */
  predicate SameClient(c: Client, d: Client) {
    c == d || (c.AwaitBody? && d.AwaitBody? && c == d.(kind := c.kind))
  }

  predicate Suffix(a: seq<Byte>, b: seq<Byte>) {
    |a| <= |b| && b[|b| - |a|..] == a
  }

  /** To the client, `w` looks like the whole system `s` once `coming` has reached it. */
  predicate Agree(s: System, w: System, coming: seq<Byte>) {
    && s.open && w.open && SameClient(s.client, w.client) && s.inPoll == w.inPoll && s.residue == w.residue
    && s.sent == w.sent && s.read == w.read
    && w.s2c == s.s2c + coming
    && Suffix(s.c2s, w.c2s)
  }

  /** A handle between calls, as a state of the whole system has it. */
  predicate Matches(s: System, v: View, coming: seq<Byte>) {
    Agree(s, Alone(v), coming)
  }

  /** What a step of the daemon adds to the reply stream. */
  function Added(s: System, t: System): (r: seq<Byte>) {
    if |s.s2c| <= |t.s2c| then t.s2c[|s.s2c|..] else []
  }

  function Written(s: System, all: seq<Event>): (r: seq<Byte>)
    requires IsRun(s, all)
    decreases |all|
  {
    if all == [] then [] else Reaching(s, all[0]) + Written(Step(s, all[0]), all[1..])
  }

  function OfClients(all: seq<Event>): (es: seq<Event>) {
    if all == [] then [] else Mine(all[0]) + OfClients(all[1..])
  }

  lemma SuffixOf(a: seq<Byte>, b: seq<Byte>, n: nat, x: seq<Byte>)
    requires n <= |a| && Suffix(a, b)
    ensures Suffix(a[n..], b) && Suffix(a + x, b + x)
  {
    assert (b + x)[|b| - |a|..] == b[|b| - |a|..] + x;
  }

  /** The daemon's steps leave the client alone, take from one stream and add to the other. */
  lemma ServerStepOnly(s: System, e: Event) returns (n: nat)
    requires Enabled(s, e) && !OfClient(e) && Step(s, e).open
    ensures n <= |s.c2s|
    ensures var t := Step(s, e);
            t == s.(server := t.server, c2s := s.c2s[n..], s2c := s.s2c + Added(s, t), serverRcvd := t.serverRcvd,
                    serverSent := t.serverSent, reqs := t.reqs, answers := t.answers)
  {
    n := if e.Wake? then 0 else 5 + RequestLength(s.c2s);
  }

  lemma ServerStepAgrees(s: System, e: Event, w: System, coming: seq<Byte>)
    requires Enabled(s, e) && !OfClient(e) && Step(s, e).open
    requires Agree(s, w, Added(s, Step(s, e)) + coming)
    ensures Agree(Step(s, e), w, coming)
  {
    var n := ServerStepOnly(s, e);
    SuffixOf(s.c2s, w.c2s, n, []);
  }

  lemma TransmitAgrees(s: System, w: System, coming: seq<Byte>, q: Request)
    requires Agree(s, w, coming) && FramableRequest(q)
    ensures Agree(Transmit(s, q), Transmit(w, q), coming)
  {
    SuffixOf(s.c2s, w.c2s, 0, RequestFrame(q));
  }

  lemma DispatchAgrees(s: System, w: System, coming: seq<Byte>, k: Byte, enc: Encoding)
    requires Agree(s, w, coming) && Fits(s, enc)
    ensures Agree(Dispatch(s, k, enc), Dispatch(w, k, enc), coming)
  {
    if enc.Encoded? {
      TransmitAgrees(s, w, coming, Request(k, s.residue + enc.args));
    }
  }

  lemma FinishAgrees(s: System, w: System, coming: seq<Byte>, call: Call, status: nat, len: nat, enc: Encoding)
    requires Agree(s, w, coming) && Fits(s, enc)
    ensures Agree(Finish(s, call, status, len, enc), Finish(w, call, status, len, enc), coming)
  {
    if call.Prologue? {
      DispatchAgrees(s.(read := s.read + 1, client := Ready), w.(read := w.read + 1, client := Ready), coming, call.next, enc);
    }
  }

  lemma HeaderAgrees(s: System, w: System, coming: seq<Byte>, enc: Encoding)
    requires Agree(s, w, coming) && Enabled(s, ReadHeader(enc))
    ensures Enabled(w, ReadHeader(enc)) && Agree(HeaderStep(s, enc), HeaderStep(w, enc), coming)
  {
    assert w.s2c[..4] == s.s2c[..4] && w.s2c[4..8] == s.s2c[4..8];
    assert Agree(TakeHeader(s), TakeHeader(w), coming);
    if ReplyLength(s.s2c) == 0 {
      FinishAgrees(TakeHeader(s), TakeHeader(w), coming, s.client.call, ReplyStatus(s.s2c), 0, enc);
    }
  }

  lemma BodyAgrees(s: System, w: System, coming: seq<Byte>, n: nat, enc: Encoding)
    requires Agree(s, w, coming) && Enabled(s, ReadBody(n, enc))
    ensures Enabled(w, ReadBody(n, enc)) && Agree(BodyStep(s, n, enc), BodyStep(w, n, enc), coming)
  {
    var c := s.client;
    assert Agree(TakeBody(s, n), TakeBody(w, n), coming);
    if c.got + n >= c.len {
      FinishAgrees(TakeBody(s, n), TakeBody(w, n), coming, c.call, c.status, c.len, enc);
    }
  }

  lemma ClientStepAgrees(s: System, e: Event, w: System, coming: seq<Byte>)
    requires Enabled(s, e) && OfClient(e) && Agree(s, w, coming)
    ensures Enabled(w, e) && Agree(Step(s, e), Step(w, e), coming)
  {
    match e
    case CallPlain(k, enc) => DispatchAgrees(s, w, coming, k, enc);
    case BeginPoll(timeout) =>
      if HasRoom(s, 4) { TransmitAgrees(s, w, coming, Request(BEGIN_POLL, s.residue + timeout)); }
    case CancelPoll => TransmitAgrees(s, w, coming, Request(CANCEL_POLL, s.residue));
    case ReadHeader(enc) => HeaderAgrees(s, w, coming, enc);
    case ReadBody(n, enc) => BodyAgrees(s, w, coming, n, enc);
    case _ =>
  }

  lemma ClientStepCan(s: System, e: Event, w: System)
    requires Enabled(w, e) && OfClient(e) && Agree(s, w, [])
    ensures Enabled(s, e)
  {
  }

  function Mine(e: Event): (es: seq<Event>) {
    if OfClient(e) then [e] else []
  }

  /** One step of the whole system is one step of the client alone, or none. */
  lemma OneStepSeen(s: System, e: Event, w: System, later: seq<Byte>) returns (x: System)
    requires Enabled(s, e) && Step(s, e).open
    requires Agree(s, w, Reaching(s, e) + later)
    ensures Agree(Step(s, e), x, later)
    ensures forall es :: IsRun(x, es) ==> IsRun(w, Mine(e) + es) && After(w, Mine(e) + es) == After(x, es)
  {
    if OfClient(e) {
      assert [] + later == later;
      ClientStepAgrees(s, e, w, later);
      x := Step(w, e);
      forall es | IsRun(x, es) ensures IsRun(w, Mine(e) + es) && After(w, Mine(e) + es) == After(x, es) {
        FirstThen(w, e, es);
      }
    } else {
      ServerStepAgrees(s, e, w, later);
      x := w;
      forall es | IsRun(x, es) ensures Mine(e) + es == es { }
    }
  }

  function Reaching(s: System, e: Event): (r: seq<Byte>)
    requires Enabled(s, e)
  {
    if OfClient(e) then [] else Added(s, Step(s, e))
  }

  lemma Regroup(s: System, w: System, a: seq<Byte>, b: seq<Byte>, later: seq<Byte>)
    requires Agree(s, w, a + b + later)
    ensures Agree(s, w, a + (b + later))
  {
    assert a + b + later == a + (b + later);
  }

  lemma FirstSeen(s: System, all: seq<Event>, w: System, later: seq<Byte>) returns (x: System)
    requires IsRun(s, all) && all != [] && After(s, all).open && Agree(s, w, Written(s, all) + later)
    ensures Agree(Step(s, all[0]), x, Written(Step(s, all[0]), all[1..]) + later)
    ensures forall es :: IsRun(x, es) ==> IsRun(w, Mine(all[0]) + es) && After(w, Mine(all[0]) + es) == After(x, es)
  {
    OpenBefore(Step(s, all[0]), all[1..]);
    var rest := Written(Step(s, all[0]), all[1..]);
    Regroup(s, w, Reaching(s, all[0]), rest, later);
    x := OneStepSeen(s, all[0], w, rest + later);
  }

  /**
   Every run of the whole system, seen from the client, is a run of the client alone on the bytes
   that the daemon sends in it.
   */
  lemma {:induction false} SeenAlone(s: System, all: seq<Event>, w: System, later: seq<Byte>)
    requires IsRun(s, all) && After(s, all).open && Agree(s, w, Written(s, all) + later)
    ensures IsRun(w, OfClients(all)) && Agree(After(s, all), After(w, OfClients(all)), later)
    decreases |all|
  {
    if all != [] {
      var x := FirstSeen(s, all, w, later);
      OpenBefore(Step(s, all[0]), all[1..]);
      SeenAlone(Step(s, all[0]), all[1..], x, later);
      assert OfClients(all) == Mine(all[0]) + OfClients(all[1..]);
    }
  }

  lemma OpenBefore(s: System, all: seq<Event>)
    requires IsRun(s, all) && After(s, all).open
    ensures s.open
  {
  }

  /** And what the client can do alone, the whole system can do once those bytes have come. */
  lemma {:induction false} AloneTogether(s: System, w: System, es: seq<Event>)
    requires IsRun(w, es) && After(w, es).open && Agree(s, w, []) && forall e :: e in es ==> OfClient(e)
    ensures IsRun(s, es) && Agree(After(s, es), After(w, es), [])
    decreases |es|
  {
    if es != [] {
      ClientStepCan(s, es[0], w);
      ClientStepAgrees(s, es[0], w, []);
      AloneTogether(Step(s, es[0]), Step(w, es[0]), es[1..]);
    }
  }

  /** One call after another. */
  lemma PlaysJoin(v: View, a: seq<Event>, u: View, b: seq<Event>, x: View)
    requires Plays(v, a, u) && Plays(u, b, x)
    ensures Plays(v, a + b, x)
  {
    var w := After(Alone(v), a);
    AloneTogether(w, Alone(u), b);
    AloneTogether(Alone(u), w, b);
    RunLeads(Alone(v), a);
  }

  // ---------------------------------------------------------------- main results

  lemma EndsAlike(t: System, v: View, es: seq<Event>, u: View, later: seq<Byte>)
    requires Plays(v, es, u) && Agree(t, After(Alone(v), es), later)
    ensures Matches(t, u, later)
  {
  }

  /**
   Refinement: if the calls made on a handle went through the client's events of a run of the whole
   system, on the bytes its daemon sends in that run, then handle and system agree again after it.
   */
  lemma WholeRun(s: System, all: seq<Event>, v: View, es: seq<Event>, u: View, later: seq<Byte>)
    requires IsRun(s, all) && After(s, all).open && OfClients(all) == es
    requires Matches(s, v, Written(s, all) + later) && Plays(v, es, u)
    ensures Matches(After(s, all), u, later)
  {
    SeenAlone(s, all, Alone(v), later);
    EndsAlike(After(s, all), v, es, u, later);
  }

  /**
   And there is such a run: wherever the whole system has got to in a call, once the bytes the call
   reads have come, the rest of it can happen.
   */
  lemma CanFinish(s: System, all: seq<Event>, v: View, es: seq<Event>, k: nat, u: View)
    requires IsRun(s, all) && After(s, all).open && k <= |es| && OfClients(all) == es[..k]
    requires Matches(s, v, Written(s, all)) && Plays(v, es, u)
    ensures IsRun(s, all + es[k..]) && Matches(After(s, all + es[k..]), u, [])
  {
    var t := After(s, all);
    assert Written(s, all) + [] == Written(s, all);
    SeenAlone(s, all, Alone(v), []);
    assert es == es[..k] + es[k..];
    RunsSplit(Alone(v), es[..k], es[k..]);
    AloneTogether(t, After(Alone(v), es[..k]), es[k..]);
    RunLeads(s, all);
    EndsAlike(After(t, es[k..]), v, es, u, []);
  }

  /**
   So the handle's own count of requests sent minus replies read is its poll flag, plus the failed
   cancels minus the begin-polls never sent, over every run without over-read.
   */
  lemma HandleLedger(s: System, all: seq<Event>, v: View, es: seq<Event>, u: View, later: seq<Byte>)
    requires Initial(s) && IsRun(s, all) && After(s, all).open && After(s, all).overReads == 0 && OfClients(all) == es
    requires Matches(s, v, Written(s, all) + later) && Plays(v, es, u)
    ensures u.requests - u.replies == (if u.inPoll then 1 else 0) + After(s, all).badCancels - After(s, all).badPolls
  {
    WholeRun(s, all, v, es, u, later);
    Ledger(s, all);
  }

  // ---------------------------------------------------------------- the daemon's end

  /** Reading a request and answering it is one step of the daemon. */
  lemma DaemonTurn(s: System, coming: seq<Byte>, q: Request, rest: seq<Byte>, p: Reply)
    requires s.open && s.server.Idle? && (PlainKind(q.kind) || PollKind(q.kind))
    requires FramableRequest(q) && s.c2s + coming == RequestFrame(q) + rest && |s.c2s| >= 5 + |q.body|
    requires ImmediateAnswer(q.kind, p.status, p.body)
    ensures Enabled(s, Serve(p.status, p.body))
    ensures var t := Step(s, Serve(p.status, p.body));
            t.open && t.server.Idle? && t.c2s + coming == rest && t.s2c == s.s2c + ReplyFrame(p)
  {
    FrameArrived(s, coming, q, rest);
  }

  /** With a handler that blocks in between, it is two. */
  lemma DaemonBlocks(s: System, coming: seq<Byte>, q: Request, rest: seq<Byte>, p: Reply)
    requires s.open && s.server.Idle? && (q.kind == BEGIN_POLL || ReceivingKind(q.kind))
    requires FramableRequest(q) && s.c2s + coming == RequestFrame(q) + rest && |s.c2s| >= 5 + |q.body|
    requires if q.kind == BEGIN_POLL then PollAnswer(p.status, p.body) else OtherAnswer(p.status, p.body)
    ensures Enabled(s, Block) && Enabled(Step(s, Block), Wake(p.status, p.body))
    ensures var t := Step(Step(s, Block), Wake(p.status, p.body));
            t.open && t.server.Idle? && t.c2s + coming == rest && t.s2c == s.s2c + ReplyFrame(p)
  {
    FrameArrived(s, coming, q, rest);
  }

  lemma FrameArrived(s: System, coming: seq<Byte>, q: Request, rest: seq<Byte>)
    requires FramableRequest(q) && s.c2s + coming == RequestFrame(q) + rest && |s.c2s| >= 5 + |q.body|
    ensures RequestAvailable(s) && RequestKind(s.c2s) == q.kind && RequestLength(s.c2s) == |q.body|
    ensures s.c2s[5 + |q.body|..] + coming == rest
  {
    RequestFrameParses(q, rest);
    assert (s.c2s + coming)[1..5] == s.c2s[1..5];
    assert (s.c2s + coming)[5 + |q.body|..] == s.c2s[5 + |q.body|..] + coming;
  }

  /** Taking a cancel inside the poll handler and answering both is one step, and nothing else is. */
  lemma DaemonWoken(s: System, coming: seq<Byte>, rest: seq<Byte>)
    requires s.open && s.server.Polling? && |s.c2s| >= 5
    ensures Enabled(s, SocketReady)
    ensures s.c2s + coming == RequestFrame(Request(CANCEL_POLL, [])) + rest ==>
              var t := Step(s, SocketReady);
              && t.open && t.server.Idle? && t.c2s + coming == rest
              && t.s2c == s.s2c + ReplyFrame(Reply(SUCCESS, [])) + ReplyFrame(Reply(SUCCESS, []))
    ensures Step(s, SocketReady).open <==> RequestKind(s.c2s) == CANCEL_POLL && RequestLength(s.c2s) == 0
  {
    if s.c2s + coming == RequestFrame(Request(CANCEL_POLL, [])) + rest {
      FrameArrived(s, coming, Request(CANCEL_POLL, []), rest);
    }
  }
}
