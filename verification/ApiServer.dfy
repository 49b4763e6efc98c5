/**
 The daemon's end of the application IPC: the handlers of `APIClient` that touch registrations,
 `close_client`, and the service loop of a session, working in place on shared state.
 */
module ApiServer {
  import opened Collections
  import opened Registrations
  import opened IpcDefs

  /** One request as the service loop sees it once it has been read. */
  datatype Message =
    | Register(info: RegInfo)
    | Unregister(regid: nat)
    | Bind(regid: nat)
    | Unbind(regid: nat)
    | Close
    | Unknown
    | CancelledPoll(answered: bool)   // a poll whose cancel was, or could not be, answered
    | Other(result: int)              // a handler that leaves registrations alone

  /** How one turn of the service loop goes; `sent` says whether the reply can be written. */
  datatype Turn =
    | StopBeforeRead
    | ReadFails
    | ShortHeader
    | RemainderFails
    | StopAfterRead
    | Dispatch(message: Message, sent: bool)

  /** `op` is a step of session `c`. */
  predicate StepOf(op: Op, c: nat) {
    match op
    case OpAccept(d) => d == c
    case OpRegister(d, _) => d == c
    case OpUnregister(d, _) => d == c
    case OpBind(d, _) => d == c
    case OpUnbind(d, _) => d == c
    case OpClose(d) => d == c
    case OpInternal => false
    case OpTimer(_) => false
    case OpDaemon => false
  }

  class Server {
    var table: map<nat, Registration>
    var bindings: map<nat, seq<nat>>
    var clients: seq<nat>
    var nextRegid: nat
    var posted: seq<nat>

    /** The daemon at start, with its own registrations and those of its store. */
    constructor (table: map<nat, Registration>, nextRegid: nat)
      requires Initial(State(table, map[], [], nextRegid, []))
      ensures Abs() == State(table, map[], [], nextRegid, [])
      ensures Exclusive(Abs()) && Swept(Abs())
    {
      this.table, this.nextRegid := table, nextRegid;
      bindings, clients, posted := map[], [], [];
    }

    /** A connection is accepted, and its session listed. */
    method AcceptClient(c: nat)
      requires Exclusive(Abs()) && Swept(Abs()) && c !in bindings
      modifies this
      ensures Abs() == Accept(old(Abs()), c) && Serving(c) && bindings[c] == []
    {
      AcceptKeeps(Abs(), c);
      bindings := bindings[c := []];
      clients := [c] + clients;
    }

    function Abs(): (st: State)
      reads this
    {
      State(table, bindings, clients, nextRegid, posted)
    }

    /** Session `c` is running and ownership is in order. */
    ghost predicate Serving(c: nat)
      reads this
    {
      Exclusive(Abs()) && Swept(Abs()) && c in bindings && c in clients
    }

    /** Session `c` is over: off the list, holding nothing, and nobody else disturbed. */
    ghost predicate Over(c: nat)
      reads this
    {
      Exclusive(Abs()) && Swept(Abs()) && c in bindings && c !in clients && bindings[c] == []
    }

    method IsBound(c: nat, regid: nat) returns (bound: bool)
      requires c in bindings
      ensures bound <==> regid in bindings[c]
    {
      var i := 0;
      while i < |bindings[c]|
        invariant i <= |bindings[c]| && regid !in bindings[c][..i]
      {
        if bindings[c][i] == regid { return true; }
        i := i + 1;
      }
      return false;
    }

    method HandleRegister(c: nat, info: RegInfo) returns (status: int)
      requires Serving(c) && (Acceptable(info) ==> nextRegid < LAST_REGID)
      modifies this
      ensures Registrations.Register(old(Abs()), c, info) == Outcome(Abs(), status)
      ensures Serving(c)
    {
      RegisterKeeps(Abs(), c, info);
      if !info.endpointValid { return EINVAL; }
      var failureAction := info.flags % 4;
      if failureAction == 0 { return EINVAL; }
      var replayAction := info.replayFlags % 4;
      if replayAction == 3 { return EINVAL; }
      if info.flags >= 0x40 { return EINVAL; }
      var regid := nextRegid;
      nextRegid := nextRegid + 1;
      var reg := Registration(true, false, info.expiration == 0, info.expiration, false);
      if !info.passive {
        bindings := bindings[c := bindings[c] + [regid]];
        reg := reg.(active := true, touched := true);
      }
      table := table[regid := reg];
      assert old(table)[regid := Registration(true, false, info.expiration == 0, info.expiration, false)][regid := reg] == table;
      return SUCCESS;
    }

    method HandleUnregister(c: nat, regid: nat) returns (status: int)
      requires Serving(c)
      modifies this
      ensures Registrations.Unregister(old(Abs()), c, regid) == Outcome(Abs(), status)
      ensures Serving(c)
    {
      UnregisterKeeps(Abs(), c, regid);
      if regid !in table { return ENOTFOUND; }
      var reg := table[regid];
      var bound := IsBound(c, regid);
      if bound && reg.active {
        if reg.expired { return EINVAL; }
        table := table[regid := reg.(expired := true)];
        return SUCCESS;
      }
      if reg.active { return EBUSY; }
      table := table - {regid};
      return SUCCESS;
    }

    method HandleBind(c: nat, regid: nat) returns (status: int)
      requires Serving(c)
      modifies this
      ensures Registrations.Bind(old(Abs()), c, regid) == Outcome(Abs(), status)
      ensures Serving(c)
    {
      if regid !in table { return ENOTFOUND; }
      var reg := table[regid];
      if !reg.api { return ENOTFOUND; }
      if reg.active { return EBUSY; }
      ActivateKeeps(Abs(), c, regid);
      bindings := bindings[c := bindings[c] + [regid]];
      table := table[regid := reg.(active := true, touched := true)];
      return SUCCESS;
    }

    /** The binding found at `i` is erased and its registration released. */
    method UnbindAt(c: nat, i: nat)
      requires Serving(c) && i < |bindings[c]| && bindings[c][i] !in bindings[c][..i]
      modifies this
      ensures Registrations.Unbind(old(Abs()), c, old(bindings[c][i])) == Outcome(Abs(), SUCCESS)
    {
      var regid := bindings[c][i];
      FirstIndex(bindings[c], regid, i);
      assert Holds(Abs(), c, regid);
      bindings := bindings[c := bindings[c][..i] + bindings[c][i + 1..]];
      var expired := table[regid].expired;
      table := table[regid := table[regid].(active := false)];
      if expired {
        posted := posted + [regid];
      }
    }

    method HandleUnbind(c: nat, regid: nat) returns (status: int)
      requires Serving(c)
      modifies this
      ensures Registrations.Unbind(old(Abs()), c, regid) == Outcome(Abs(), status)
      ensures Serving(c)
    {
      UnbindKeeps(Abs(), c, regid);
      if regid !in table || !table[regid].api { return ENOTFOUND; }
      var i := 0;
      while i < |bindings[c]|
        invariant i <= |bindings[c]| && regid !in bindings[c][..i]
        invariant Abs() == old(Abs())
      {
        if bindings[c][i] == regid {
          UnbindAt(c, i);
          return SUCCESS;
        }
        i := i + 1;
      }
      return ENOTFOUND;
    }

    /** One turn of the loop in `close_client`. */
    method ReleaseFront(c: nat)
      requires c in bindings && bindings[c] != [] && Known(Abs(), c)
      modifies this
      ensures var st, b := old(Abs()), old(bindings[c]);
              Abs() == Release(st.(bindings := st.bindings[c := b[1..]]), b[0])
    {
      var regid := bindings[c][0];
      bindings := bindings[c := bindings[c][1..]];
      table := table[regid := table[regid].(active := false)];
      if table[regid].expired {
        posted := posted + [regid];
      }
    }

    method CloseClient(c: nat)
      requires Exclusive(Abs()) && Swept(Abs()) && c in bindings
      modifies this
      ensures Abs() == Closed(old(Abs()), c)
      ensures Over(c)
    {
      ghost var before := Abs();
      assert Known(before, c);
      while bindings[c] != []
        invariant c in bindings && Known(Abs(), c)
        invariant ReleaseAll(Abs(), c) == ReleaseAll(before, c)
        decreases |bindings[c]|
      {
        ReleaseFront(c);
      }
      clients := Without(clients, c);
      CloseKeeps(before, c);
    }

    /** What everybody else does between two turns of session `c`. */
    method Environment(c: nat, ops: seq<Op>)
      requires Serving(c)
      modifies this
      ensures Serving(c) && Abs() == Meanwhile(old(Abs()), c, ops)
    {
      for i := 0 to |ops|
        invariant Serving(c) && Meanwhile(Abs(), c, ops[i..]) == Meanwhile(old(Abs()), c, ops)
      {
        assert ops[i..][0] == ops[i] && ops[i..][1..] == ops[i + 1..];
        if Enabled(Abs(), ops[i]) && !StepOf(ops[i], c) {
          PerformKeeps(Abs(), ops[i]);
          OthersKeepSession(Abs(), ops[i], c);
          var t := Perform(Abs(), ops[i]);
          table, bindings, clients, nextRegid, posted := t.table, t.bindings, t.clients, t.nextRegid, t.posted;
        }
      }
    }

    /** `send_response`: a reply that cannot be written closes the session. */
    method SendResponse(c: nat, sent: bool) returns (ok: bool)
      requires Exclusive(Abs()) && Swept(Abs()) && c in bindings
      modifies this
      ensures ok == sent
      ensures sent ==> Abs() == old(Abs())
      ensures !sent ==> Over(c) && Abs() == Closed(old(Abs()), c)
    {
      if !sent {
        CloseClient(c);
      }
      return sent;
    }

    /** The handler a message is dispatched to, and what it returns. */
    method HandleMessage(c: nat, m: Message) returns (ret: int)
      requires Serving(c) && !OutOfRegids(Abs(), m)
      modifies this
      ensures Outcome(Abs(), ret) == Handle(old(Abs()), c, m)
      ensures if m.CancelledPoll? && !m.answered then Over(c) else Serving(c)
    {
      ret := SUCCESS;
      match m {
        case Register(info) => ret := HandleRegister(c, info);
        case Unregister(regid) => ret := HandleUnregister(c, regid);
        case Bind(regid) => ret := HandleBind(c, regid);
        case Unbind(regid) => ret := HandleUnbind(c, regid);
        case Close => ret := -1;
        case Unknown => ret := EMSGTYPE;
        case CancelledPoll(answered) =>
          // the result of this first reply is ignored, even when it closed the session
          var _ := SendResponse(c, answered);
        case Other(result) => ret := result;
      }
    }

    /** One turn of the service loop, from the handler on. */
    method ServeOne(c: nat, m: Message, sent: bool) returns (stop: bool, replies: seq<int>)
      requires Serving(c) && !OutOfRegids(Abs(), m)
      modifies this
      ensures Turned(Abs(), stop, replies) == OneTurn(old(Abs()), c, m, sent)
      ensures replies == AnswersTo(old(Abs()), c, m, sent) && (stop <==> EndsSession(old(Abs()), c, m, sent))
      ensures if stop then Over(c) else Serving(c)
    {
      TurnMeaning(Abs(), c, m, sent);
      var ret := HandleMessage(c, m);
      replies := if m.CancelledPoll? && m.answered then [SUCCESS] else [];
      if ret == -1 {
        CloseClient(c);
        return true, replies;
      }
      var ok := SendResponse(c, sent && !(m.CancelledPoll? && !m.answered));
      if !ok { return true, replies; }
      replies := replies + [ret];
      if ret == ECOMM || ret == EMSGTYPE {
        CloseClient(c);
        return true, replies;
      }
      stop := false;
    }

    /**
     The session thread, and the statuses it answers with. Other sessions, timers and the daemon
     act between turns (`others`). The loop ends by one of its exits; a list of turns that runs out
     is a client that went away. The one abnormal end is the assertion on the supply of regids.
     */
    method Run(c: nat, handshake: bool, turns: seq<Turn>, others: seq<seq<Op>>) returns (aborted: bool, replies: seq<int>)
      requires Serving(c) && |others| == |turns|
      modifies this
      ensures Ending(Abs(), aborted, replies) == Session(old(Abs()), c, if handshake then turns else [], others)
      ensures aborted ==> nextRegid >= LAST_REGID
      ensures !aborted ==> Over(c)
    {
      aborted, replies := false, [];
      if !handshake {
        CloseClient(c);
        return;
      }
      var i := 0;
      while i < |turns|
        invariant i <= |turns| && Serving(c)
        invariant Session(old(Abs()), c, turns, others) == Prepend(replies, Session(Abs(), c, turns[i..], others[i..]))
      {
        assert turns[i..][1..] == turns[i + 1..] && others[i..][1..] == others[i + 1..];
        Environment(c, others[i]);
        // told to stop, disconnected, a split header, or a body that never came
        if !turns[i].Dispatch? {
          CloseClient(c);
          return;
        }
        if OutOfRegids(Abs(), turns[i].message) { return true, replies; }
        var stop, more := ServeOne(c, turns[i].message, turns[i].sent);
        PrependTwice(replies, more, Session(Abs(), c, turns[i + 1..], others[i + 1..]));
        replies := replies + more;
        if stop { return; }
        i := i + 1;
      }
      CloseClient(c);
    }
  }

  // ---------------------------------------------------------------- what a session does, as a function

  /** Closing a session, once or again. */
  function Closed(st: State, c: nat): State {
    if c in st.bindings && Known(st, c) then Registrations.CloseClient(st, c) else st
  }

  function Meanwhile(st: State, c: nat, ops: seq<Op>): State
    decreases |ops|
  {
    if ops == [] then st
    else if Enabled(st, ops[0]) && !StepOf(ops[0], c) then Meanwhile(Perform(st, ops[0]), c, ops[1..])
    else Meanwhile(st, c, ops[1..])
  }

  /** `next_regid` asserts that there is one left. */
  predicate OutOfRegids(st: State, m: Message) {
    m.Register? && Acceptable(m.info) && st.nextRegid >= LAST_REGID
  }

  function Handle(st: State, c: nat, m: Message): Outcome {
    if c !in st.bindings then Outcome(st, -1)
    else
      match m
      case Register(info) => Registrations.Register(st, c, info)
      case Unregister(regid) => Registrations.Unregister(st, c, regid)
      case Bind(regid) => Registrations.Bind(st, c, regid)
      case Unbind(regid) => Registrations.Unbind(st, c, regid)
      case Close => Outcome(st, -1)
      case Unknown => Outcome(st, EMSGTYPE)
      case CancelledPoll(answered) => Outcome(if answered then st else Closed(st, c), SUCCESS)
      case Other(result) => Outcome(st, result)
  }

  datatype Turned = Turned(st: State, stop: bool, replies: seq<int>)

  /** A handled request is answered once, a cancelled poll twice; what cannot be sent ends the session. */
  function OneTurn(st: State, c: nat, m: Message, sent: bool): Turned {
    var o := Handle(st, c, m);
    var first := if m.CancelledPoll? && m.answered then [SUCCESS] else [];
    if o.status == -1 || !sent || (m.CancelledPoll? && !m.answered) then Turned(Closed(o.st, c), true, first)
    else if o.status == ECOMM || o.status == EMSGTYPE then Turned(Closed(o.st, c), true, first + [o.status])
    else Turned(o.st, false, first + [o.status])
  }

  datatype Ending = Ending(st: State, aborted: bool, replies: seq<int>)

  function Prepend(replies: seq<int>, e: Ending): Ending {
    e.(replies := replies + e.replies)
  }

  lemma PrependTwice(a: seq<int>, b: seq<int>, e: Ending)
    ensures Prepend(a, Prepend(b, e)) == Prepend(a + b, e)
  {
  }

  function Session(st: State, c: nat, turns: seq<Turn>, others: seq<seq<Op>>): Ending
    decreases |turns|
  {
    if turns == [] || others == [] then Ending(Closed(st, c), false, [])
    else
      var a := Meanwhile(st, c, others[0]);
      if !turns[0].Dispatch? then Ending(Closed(a, c), false, [])
      else if OutOfRegids(a, turns[0].message) then Ending(a, true, [])
      else
        var t := OneTurn(a, c, turns[0].message, turns[0].sent);
        if t.stop then Ending(t.st, false, t.replies)
        else Prepend(t.replies, Session(t.st, c, turns[1..], others[1..]))
  }

  // ---------------------------------------------------------------- what the answers mean

  /** The step on registrations that a message asks for. */
  function OpFor(c: nat, m: Message): (op: Option<Op>) {
    match m
    case Register(info) => Some(OpRegister(c, info))
    case Unregister(r) => Some(OpUnregister(c, r))
    case Bind(r) => Some(OpBind(c, r))
    case Unbind(r) => Some(OpUnbind(c, r))
    case CancelledPoll(answered) => if answered then None else Some(OpClose(c))
    case _ => None
  }

  function AfterMessage(st: State, c: nat, m: Message): (t: State) {
    var op := OpFor(c, m);
    if op.Some? && Enabled(st, op.value) then Perform(st, op.value) else st
  }

  /** The status a message is answered with, if it is, in terms of who holds what. */
  ghost function AnswerTo(st: State, c: nat, m: Message): (status: int) {
    match m
    case Register(info) => RegisterAnswer(info)
    case Unregister(r) => UnregisterAnswer(st, c, r)
    case Bind(r) => BindAnswer(st, r)
    case Unbind(r) => UnbindAnswer(st, c, r)
    case Unknown => EMSGTYPE
    case CancelledPoll(_) => SUCCESS
    case Close => -1
    case Other(result) => result
  }

  /** No reply follows a close, a handler's -1, or a first reply to a cancelled poll that failed. */
  predicate WillReply(m: Message, sent: bool) {
    sent && !m.Close? && m != Other(-1) && m != CancelledPoll(false)
  }

  ghost function AnswersTo(st: State, c: nat, m: Message, sent: bool): (replies: seq<int>) {
    (if m == CancelledPoll(true) then [SUCCESS] else []) + (if WillReply(m, sent) then [AnswerTo(st, c, m)] else [])
  }

  predicate EndsSession(st: State, c: nat, m: Message, sent: bool) {
    !WillReply(m, sent) || m == Unknown || m == Other(ECOMM) || m == Other(EMSGTYPE)
  }

  lemma HandleMeaning(st: State, c: nat, m: Message)
    requires Exclusive(st) && Swept(st) && c in st.bindings && c in st.clients && !OutOfRegids(st, m)
    ensures Handle(st, c, m) == Outcome(AfterMessage(st, c, m), AnswerTo(st, c, m))
  {
    match m {
      case Register(info) => RegisterMeaning(st, c, info);
      case Unregister(r) => UnregisterMeaning(st, c, r);
      case Bind(r) => BindMeaning(st, c, r);
      case Unbind(r) => UnbindMeaning(st, c, r);
      case _ =>
    }
  }

  /** What one turn answers, when it ends the session, and what it leaves. */
  lemma TurnMeaning(st: State, c: nat, m: Message, sent: bool)
    requires Exclusive(st) && Swept(st) && c in st.bindings && c in st.clients && !OutOfRegids(st, m)
    ensures var t, u := OneTurn(st, c, m, sent), AfterMessage(st, c, m);
            && t.replies == AnswersTo(st, c, m, sent)
            && (t.stop <==> EndsSession(st, c, m, sent))
            && t.st == if t.stop then Closed(u, c) else u
  {
    HandleMeaning(st, c, m);
  }

  function Flat(answers: seq<seq<int>>): (r: seq<int>) {
    if answers == [] then [] else answers[0] + Flat(answers[1..])
  }

  /** The state in which the `n`-th message is handled, after what others do meanwhile. */
  function ComesTo(st: State, c: nat, turns: seq<Turn>, others: seq<seq<Op>>, states: seq<State>, n: nat): (t: State)
    requires n <= |states| && n < |turns| == |others| && (n > 0 ==> turns[n - 1].Dispatch?)
  {
    Meanwhile(if n == 0 then st else AfterMessage(states[n - 1], c, turns[n - 1].message), c, others[n])
  }

  /** In this state the turn brings a message that can be handled, and these are its answers. */
  ghost predicate Exchanged(st: State, c: nat, turn: Turn, answers: seq<int>) {
    turn.Dispatch? && !OutOfRegids(st, turn.message) && answers == AnswersTo(st, c, turn.message, turn.sent)
  }

  predicate Ends(st: State, c: nat, turn: Turn) {
    turn.Dispatch? && EndsSession(st, c, turn.message, turn.sent)
  }

  /**
   The messages of the first `|answers|` turns are handled, each in the state the one before and the
   others have led to, each with the answers due in that state; and all but the last let the session
   go on.
   */
  ghost predicate Talks(st: State, c: nat, turns: seq<Turn>, others: seq<seq<Op>>, states: seq<State>, answers: seq<seq<int>>) {
    && |states| == |answers| <= |turns| == |others|
    && (forall n :: 0 <= n < |answers| ==> Exchanged(states[n], c, turns[n], answers[n]))
    && (forall n :: 0 <= n < |answers| ==> states[n] == ComesTo(st, c, turns, others, states, n))
    && (forall n :: 0 <= n < |answers| - 1 ==> !Ends(states[n], c, turns[n]))
  }

  /** How the session ends after them. */
  ghost predicate EndsAs(st: State, c: nat, turns: seq<Turn>, others: seq<seq<Op>>, states: seq<State>, answers: seq<seq<int>>, e: Ending)
    requires Talks(st, c, turns, others, states, answers)
  {
    var n := |answers|;
    var last := if n == 0 then st else AfterMessage(states[n - 1], c, turns[n - 1].message);
    if n > 0 && Ends(states[n - 1], c, turns[n - 1]) then
      e.st == Closed(last, c) && !e.aborted
    else if n == |turns| then e.st == Closed(last, c) && !e.aborted
    else if !turns[n].Dispatch? then e.st == Closed(ComesTo(st, c, turns, others, states, n), c) && !e.aborted
    else e.st == ComesTo(st, c, turns, others, states, n) && OutOfRegids(e.st, turns[n].message) && e.aborted
  }

  lemma ComesToMore(st: State, a: State, c: nat, turns: seq<Turn>, others: seq<seq<Op>>, states: seq<State>, n: nat)
    requires 0 < n < |turns| == |others| && n <= |states| + 1 && turns[n - 1].Dispatch? && turns[0].Dispatch?
    ensures ComesTo(st, c, turns, others, [a] + states, n)
            == ComesTo(AfterMessage(a, c, turns[0].message), c, turns[1..], others[1..], states, n - 1)
  {
    assert n > 1 ==> ([a] + states)[n - 1] == states[n - 2] && turns[1..][n - 2] == turns[n - 1];
    assert others[1..][n - 1] == others[n];
  }

  lemma TalksMore(st: State, a: State, c: nat, turns: seq<Turn>, others: seq<seq<Op>>, states: seq<State>, answers: seq<seq<int>>,
                  first: seq<int>)
    requires turns != [] && |turns| == |others| && Exchanged(a, c, turns[0], first)
    requires a == Meanwhile(st, c, others[0]) && !Ends(a, c, turns[0])
    requires Talks(AfterMessage(a, c, turns[0].message), c, turns[1..], others[1..], states, answers)
    ensures Talks(st, c, turns, others, [a] + states, [first] + answers)
  {
    var b := AfterMessage(a, c, turns[0].message);
    var xs, ys := [a] + states, [first] + answers;
    forall n | 0 <= n < |ys|
      ensures Exchanged(xs[n], c, turns[n], ys[n]) && (n < |ys| - 1 ==> !Ends(xs[n], c, turns[n]))
    {
      assert n > 0 ==> turns[n] == turns[1..][n - 1] && xs[n] == states[n - 1] && ys[n] == answers[n - 1];
    }
    forall n | 0 <= n < |ys| ensures xs[n] == ComesTo(st, c, turns, others, xs, n) {
      if n > 0 { ComesToMore(st, a, c, turns, others, states, n); }
    }
  }

  lemma EndsMore(st: State, a: State, c: nat, turns: seq<Turn>, others: seq<seq<Op>>, states: seq<State>, answers: seq<seq<int>>,
                 e: Ending, first: seq<int>)
    requires turns != [] && |turns| == |others| && turns[0].Dispatch?
    requires !Ends(a, c, turns[0])
    requires Talks(AfterMessage(a, c, turns[0].message), c, turns[1..], others[1..], states, answers)
    requires EndsAs(AfterMessage(a, c, turns[0].message), c, turns[1..], others[1..], states, answers, e)
    requires Talks(st, c, turns, others, [a] + states, [first] + answers)
    ensures EndsAs(st, c, turns, others, [a] + states, [first] + answers, Prepend(first, e))
  {
    var n := |answers|;
    if n > 0 { assert turns[1..][n - 1] == turns[n] && ([a] + states)[n] == states[n - 1]; }
    if n + 1 < |turns| {
      assert turns[1..][n] == turns[n + 1];
      ComesToMore(st, a, c, turns, others, states, n + 1);
    }
  }

  /**
   The answers of a whole session, whatever others do meanwhile: those due to the messages handled,
   one after the other, and nothing else.
   */
  lemma {:induction false} SessionMeaning(st: State, c: nat, turns: seq<Turn>, others: seq<seq<Op>>)
    returns (states: seq<State>, answers: seq<seq<int>>)
    requires Exclusive(st) && Swept(st) && c in st.bindings && c in st.clients && |turns| == |others|
    ensures Talks(st, c, turns, others, states, answers)
    ensures EndsAs(st, c, turns, others, states, answers, Session(st, c, turns, others))
    ensures Session(st, c, turns, others).replies == Flat(answers)
    decreases |turns|
  {
    states, answers := [], [];
    if turns == [] { return; }
    var a := Meanwhile(st, c, others[0]);
    MeanwhileKeeps(st, c, others[0]);
    if !turns[0].Dispatch? || OutOfRegids(a, turns[0].message) { return; }
    var m, sent := turns[0].message, turns[0].sent;
    TurnMeaning(a, c, m, sent);
    var first := AnswersTo(a, c, m, sent);
    if EndsSession(a, c, m, sent) {
      states, answers := [a], [first];
      assert Flat([first]) == first + Flat([]) == first;
      return;
    }
    var b := AfterMessage(a, c, m);
    TurnGoesOn(a, c, m, sent);
    states, answers := SessionMeaning(b, c, turns[1..], others[1..]);
    TalksMore(st, a, c, turns, others, states, answers, first);
    EndsMore(st, a, c, turns, others, states, answers, Session(b, c, turns[1..], others[1..]), first);
    assert Flat([first] + answers) == first + Flat(answers) by { assert ([first] + answers)[1..] == answers; }
    states, answers := [a] + states, [first] + answers;
  }

  lemma {:induction false} FirstIndex(s: seq<nat>, x: nat, i: nat)
    requires i < |s| && s[i] == x && x !in s[..i]
    ensures IndexOf(s, x) == i
  {
    var k := IndexOf(s, x);
    assert forall j :: 0 <= j < i ==> s[j] in s[..i];
    assert forall j :: 0 <= j < k ==> s[j] in s[..k];
  }

  /** No step of another session removes `c` from the list or touches its bindings. */
  lemma OthersKeepSession(st: State, op: Op, c: nat)
    requires Exclusive(st) && Swept(st) && Enabled(st, op) && !StepOf(op, c) && c in st.bindings && c in st.clients
    ensures var t := Perform(st, op);
            c in t.bindings && c in t.clients && t.bindings[c] == st.bindings[c]
  {
    if op.OpClose? { ReleaseAllKeeps(st, op.c); }
  }

  lemma {:induction false} MeanwhileKeeps(st: State, c: nat, ops: seq<Op>)
    requires Exclusive(st) && Swept(st) && c in st.bindings && c in st.clients
    ensures var t := Meanwhile(st, c, ops); Exclusive(t) && Swept(t) && c in t.bindings && c in t.clients
    decreases |ops|
  {
    if ops != [] {
      if Enabled(st, ops[0]) && !StepOf(ops[0], c) {
        PerformKeeps(st, ops[0]);
        OthersKeepSession(st, ops[0], c);
        MeanwhileKeeps(Perform(st, ops[0]), c, ops[1..]);
      } else {
        MeanwhileKeeps(st, c, ops[1..]);
      }
    }
  }

  /** A message that lets the session go on leaves it running. */
  lemma TurnGoesOn(st: State, c: nat, m: Message, sent: bool)
    requires Exclusive(st) && Swept(st) && c in st.bindings && c in st.clients && !OutOfRegids(st, m)
    requires !EndsSession(st, c, m, sent)
    ensures var t := AfterMessage(st, c, m); Exclusive(t) && Swept(t) && c in t.bindings && c in t.clients
  {
    var op := OpFor(c, m);
    if op.Some? && Enabled(st, op.value) { PerformKeeps(st, op.value); }
  }

  /** After any ending of a session, an API registration that is active belongs to another running session. */
  lemma OverLeavesNoOrphan(server: Server, c: nat, r: nat)
    requires server.Over(c) && r in server.table && server.table[r].api && server.table[r].active
    ensures exists d :: d != c && d in server.clients && Holds(server.Abs(), d, r)
  {
    assert Held(server.Abs(), r);
    var d :| Holds(server.Abs(), d, r);
  }
}
