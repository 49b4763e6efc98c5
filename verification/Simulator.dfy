/**
 The event loop of the simulator: one priority queue of timed events, and the timers of the nodes,
 of which the loop sees only the number of milliseconds until the next one. What happens outside
 the loop in one turn (posting and cancelling) is an input to it.
 */
module Simulator {
  import opened Collections

  const INT_MAX: real := 2147483647.0

  datatype SimEvent = SimEvent(id: nat, time: real)

  datatype Effect = Post(event: SimEvent) | Cancel(id: nat)

  /**
   What one turn of the loop meets: what `run_node_events` returns (-1 when no timer is pending)
   and does to the queue, and what the handler of an event does if one is run.
   */
  datatype Input = Input(timerMs: int, nodes: seq<Effect>, handler: seq<Effect>)

  /** With it, which of several earliest events the priority queue has on top. */
  datatype Turn = Turn(timerMs: int, nodes: seq<Effect>, handler: seq<Effect>, top: nat)

  /** `posted`, `popped` and `handled` are the history of the queue. */
  datatype State = State(
    time: real,
    queue: seq<SimEvent>,
    cancelled: set<nat>,
    posted: seq<SimEvent>,
    popped: seq<SimEvent>,
    handled: seq<SimEvent>)

  datatype How = NothingLeft | TimerDue | EventDue | AssertFails

  datatype Outcome = Outcome(state: State, how: How)

  function ApplyOne(s: State, e: Effect): State {
    match e
    case Post(event) => s.(queue := s.queue + [event], posted := s.posted + [event])
    case Cancel(id) => s.(cancelled := s.cancelled + {id})
  }

  function Apply(s: State, es: seq<Effect>): State
    decreases |es|
  {
    if es == [] then s else Apply(ApplyOne(s, es[0]), es[1..])
  }

  function NextTimer(now: real, timerMs: int): real {
    if timerMs == -1 then INT_MAX else now + timerMs as real / 1000.0
  }

  predicate IsTop(q: seq<SimEvent>, k: nat) {
    k < |q| && forall j :: 0 <= j < |q| ==> q[k].time <= q[j].time
  }

  /** Takes the event off the queue and, unless it was cancelled, runs its handler. */
  function Pop(s: State, k: nat, handler: seq<Effect>): State
    requires k < |s.queue|
  {
    var e := s.queue[k];
    var a := s.(time := e.time, queue := RemoveAt(s.queue, k), popped := s.popped + [e]);
    if e.id in s.cancelled then a else Apply(a.(handled := s.handled + [e]), handler)
  }

  predicate CanTurn(s: State, t: Turn) {
    var q := Apply(s, t.nodes).queue;
    q == [] || IsTop(q, t.top)
  }

  function Next(s: State, t: Turn): Outcome
    requires CanTurn(s, t)
  {
    var a := Apply(s, t.nodes);
    var timer := NextTimer(a.time, t.timerMs);
    if a.queue == [] then
      if t.timerMs == -1 then Outcome(a, NothingLeft)
      else if timer < INT_MAX then Outcome(a.(time := timer), TimerDue)
      else Outcome(a, AssertFails)
    else if timer < a.queue[t.top].time then Outcome(a.(time := timer), TimerDue)
    else Outcome(Pop(a, t.top, t.handler), EventDue)
  }

  predicate GoesOn(s: State, t: Turn) {
    CanTurn(s, t) && (Next(s, t).how.TimerDue? || Next(s, t).how.EventDue?)
  }

  predicate IsRun(states: seq<State>, turns: seq<Turn>) {
    && |states| == |turns| + 1
    && (forall i :: 0 <= i < |turns| ==> GoesOn(states[i], turns[i]) && states[i + 1] == Next(states[i], turns[i]).state)
  }

  // ---------------------------------------------------------------- what posting keeps

  /** Nothing is posted into the past, nor beyond the time that stands for "no timer". */
  predicate Timely(es: seq<Effect>, now: real) {
    forall i :: 0 <= i < |es| && es[i].Post? ==> now <= es[i].event.time <= INT_MAX
  }

  predicate TimelyTurn(s: State, t: Turn)
    requires CanTurn(s, t)
  {
    && -1 <= t.timerMs
    && Timely(t.nodes, s.time)
    && (Next(s, t).how.EventDue? ==> Timely(t.handler, Next(s, t).state.time))
  }

  predicate AllFrom(q: seq<SimEvent>, now: real) {
    forall i :: 0 <= i < |q| ==> now <= q[i].time <= INT_MAX
  }

  predicate Sorted(q: seq<SimEvent>) {
    forall i, j :: 0 <= i < j < |q| ==> q[i].time <= q[j].time
  }

  predicate AllUpTo(q: seq<SimEvent>, now: real) {
    forall i :: 0 <= i < |q| ==> q[i].time <= now
  }

  /** The past is behind, in order, and the future ahead. */
  predicate Ordered(s: State) {
    AllFrom(s.queue, s.time) && Sorted(s.popped) && AllUpTo(s.popped, s.time)
  }

  /** No event is lost or made up, and those popped were handled unless cancelled. */
  predicate Accounted(s: State) {
    && multiset(s.posted) == multiset(s.queue) + multiset(s.popped)
    && (forall e :: e in s.popped ==> e in s.handled || e.id in s.cancelled)
    && multiset(s.handled) <= multiset(s.popped)
  }

  lemma {:induction false} ApplyFrame(s: State, es: seq<Effect>)
    ensures var a := Apply(s, es);
            a.time == s.time && a.popped == s.popped && a.handled == s.handled && s.cancelled <= a.cancelled
    decreases |es|
  {
    if es != [] {
      ApplyFrame(ApplyOne(s, es[0]), es[1..]);
    }
  }

  lemma {:induction false} ApplyTimely(s: State, es: seq<Effect>, now: real)
    requires AllFrom(s.queue, now) && Timely(es, now)
    ensures AllFrom(Apply(s, es).queue, now)
    decreases |es|
  {
    if es != [] {
      ApplyTimely(ApplyOne(s, es[0]), es[1..], now);
    }
  }

  lemma {:induction false} ApplyAccounted(s: State, es: seq<Effect>)
    requires Accounted(s)
    ensures Accounted(Apply(s, es))
    decreases |es|
  {
    if es != [] {
      ApplyAccounted(ApplyOne(s, es[0]), es[1..]);
    }
  }

  // ---------------------------------------------------------------- what posting and cancelling do

  function PostedBy(es: seq<Effect>): (r: seq<SimEvent>) {
    if es == [] then [] else (if es[0].Post? then [es[0].event] else []) + PostedBy(es[1..])
  }

  /** Effects post just their events, in order, and cancel just their ids. */
  lemma {:induction false} ApplyMeaning(s: State, es: seq<Effect>)
    ensures var a := Apply(s, es);
            && a.queue == s.queue + PostedBy(es) && a.posted == s.posted + PostedBy(es)
            && (forall id :: id in a.cancelled <==> id in s.cancelled || Cancel(id) in es)
            && a.time == s.time && a.popped == s.popped && a.handled == s.handled
    decreases |es|
  {
    if es != [] {
      ApplyMeaning(ApplyOne(s, es[0]), es[1..]);
      assert es == [es[0]] + es[1..];
    }
  }

  // ---------------------------------------------------------------- one turn

  lemma PopOrdered(s: State, k: nat, handler: seq<Effect>)
    requires Ordered(s) && IsTop(s.queue, k)
    requires Timely(handler, s.queue[k].time)
    ensures Ordered(Pop(s, k, handler))
    ensures s.time <= Pop(s, k, handler).time == s.queue[k].time
  {
    var e := s.queue[k];
    var a := s.(time := e.time, queue := RemoveAt(s.queue, k), popped := s.popped + [e]);
    if e.id !in s.cancelled {
      ApplyFrame(a.(handled := s.handled + [e]), handler);
      ApplyTimely(a.(handled := s.handled + [e]), handler, e.time);
    }
  }

  lemma PopTime(s: State, k: nat, handler: seq<Effect>)
    requires k < |s.queue|
    ensures Pop(s, k, handler).time == s.queue[k].time
  {
    var e := s.queue[k];
    var a := s.(time := e.time, queue := RemoveAt(s.queue, k), popped := s.popped + [e]);
    ApplyFrame(a.(handled := s.handled + [e]), handler);
  }

  /** The times at which something is waiting to happen. */
  predicate IsDue(at: real, now: real, q: seq<SimEvent>, timerMs: int) {
    (timerMs != -1 && at == now + timerMs as real / 1000.0) || exists i :: 0 <= i < |q| && q[i].time == at
  }

  predicate Soonest(at: real, now: real, q: seq<SimEvent>, timerMs: int) {
    && IsDue(at, now, q, timerMs)
    && (timerMs != -1 ==> at <= now + timerMs as real / 1000.0)
    && (forall i :: 0 <= i < |q| ==> at <= q[i].time)
  }

  /** Only events lie ahead, and all of them after the time that stands for "no timer". */
  predicate BeyondLimit(q: seq<SimEvent>, timerMs: int) {
    timerMs == -1 && forall i :: 0 <= i < |q| ==> INT_MAX < q[i].time
  }

  /**
   A turn moves the clock to the soonest thing that is due, except in exactly one family of cases:
   with no timer pending, events all lying beyond INT_MAX.
   */
  lemma ClockMovesToSoonest(s: State, t: Turn)
    requires GoesOn(s, t)
    ensures var a := Apply(s, t.nodes);
            Soonest(Next(s, t).state.time, s.time, a.queue, t.timerMs) <==> !BeyondLimit(a.queue, t.timerMs)
  {
    var a := Apply(s, t.nodes);
    ApplyFrame(s, t.nodes);
    if Next(s, t).how.EventDue? {
      PopTime(a, t.top, t.handler);
      assert a.queue[t.top].time == Next(s, t).state.time;
    } else {
      assert Next(s, t).state.time == NextTimer(s.time, t.timerMs);
    }
  }

  /** In the same cases, and once past INT_MAX, and in no others, a turn sets the clock back. */
  lemma ClockSetBack(s: State, t: Turn)
    requires GoesOn(s, t) && -1 <= t.timerMs
    requires forall i :: 0 <= i < |Apply(s, t.nodes).queue| ==> s.time <= Apply(s, t.nodes).queue[i].time
    ensures Next(s, t).state.time < s.time <==> BeyondLimit(Apply(s, t.nodes).queue, t.timerMs) && INT_MAX < s.time
  {
    var a := Apply(s, t.nodes);
    ApplyFrame(s, t.nodes);
    if Next(s, t).how.EventDue? {
      PopTime(a, t.top, t.handler);
      assert a.queue[t.top].time == Next(s, t).state.time;
    }
  }

  lemma TurnOrdered(s: State, t: Turn)
    requires Ordered(s) && GoesOn(s, t) && TimelyTurn(s, t)
    ensures Ordered(Next(s, t).state) && s.time <= Next(s, t).state.time
  {
    var a := Apply(s, t.nodes);
    ApplyFrame(s, t.nodes);
    ApplyTimely(s, t.nodes, s.time);
    ClockSetBack(s, t);
    assert a.queue != [] ==> a.queue[0].time <= INT_MAX;
    if Next(s, t).how.EventDue? {
      PopTime(a, t.top, t.handler);
      PopOrdered(a, t.top, t.handler);
    }
  }

  /** In that family the clock stops at INT_MAX and nothing is taken: the next such turn is the same. */
  lemma StuckBeyondLimit(s: State, t: Turn)
    requires CanTurn(s, t) && t.nodes == [] && s.queue != [] && BeyondLimit(s.queue, t.timerMs)
    ensures Next(s, t) == Outcome(s.(time := INT_MAX), TimerDue)
    ensures CanTurn(Next(s, t).state, t) && Next(Next(s, t).state, t) == Next(s, t)
  {
    assert Apply(s, []) == s;
    assert Apply(s.(time := INT_MAX), []) == s.(time := INT_MAX);
  }

  /** When the assertion on the event fails: only a timer is left, and it is due at INT_MAX or later. */
  lemma NullEventAssert(s: State, t: Turn)
    requires CanTurn(s, t)
    ensures Next(s, t).how.AssertFails?
            <==> Apply(s, t.nodes).queue == [] && t.timerMs != -1 && INT_MAX <= s.time + t.timerMs as real / 1000.0
  {
    ApplyFrame(s, t.nodes);
  }

  /**
   What a turn does, in full. The nodes' effects happen in any case. If an event is taken, it leaves
   the queue, the clock is set to its time, and unless it was cancelled by then it is handled and its
   handler's effects happen too.
   */
  lemma TurnMeaning(s: State, t: Turn)
    requires CanTurn(s, t)
    ensures var q, u, how := s.queue + PostedBy(t.nodes), Next(s, t).state, Next(s, t).how;
            && (how.EventDue? ==>
                  && t.top < |q|
                  && var dead := q[t.top].id in s.cancelled || Cancel(q[t.top].id) in t.nodes;
                  && u.time == q[t.top].time && u.popped == s.popped + [q[t.top]]
                  && u.queue == RemoveAt(q, t.top) + (if dead then [] else PostedBy(t.handler))
                  && u.handled == s.handled + (if dead then [] else [q[t.top]])
                  && forall id :: id in u.cancelled <==>
                       id in s.cancelled || Cancel(id) in t.nodes || (!dead && Cancel(id) in t.handler))
            && (!how.EventDue? ==>
                  && u.queue == q && u.popped == s.popped && u.handled == s.handled
                  && forall id :: id in u.cancelled <==> id in s.cancelled || Cancel(id) in t.nodes)
  {
    ApplyMeaning(s, t.nodes);
    var a := Apply(s, t.nodes);
    if Next(s, t).how.EventDue? {
      var e := a.queue[t.top];
      var b := a.(time := e.time, queue := RemoveAt(a.queue, t.top), popped := a.popped + [e]);
      ApplyMeaning(b.(handled := a.handled + [e]), t.handler);
    }
  }

  lemma PopAccounted(s: State, k: nat, handler: seq<Effect>)
    requires Accounted(s) && k < |s.queue|
    ensures Accounted(Pop(s, k, handler))
  {
    var e := s.queue[k];
    var a := s.(time := e.time, queue := RemoveAt(s.queue, k), popped := s.popped + [e]);
    assert s.queue == s.queue[..k] + [e] + s.queue[k + 1..];
    if e.id !in s.cancelled {
      ApplyAccounted(a.(handled := s.handled + [e]), handler);
    }
  }

  lemma TurnAccounted(s: State, t: Turn)
    requires CanTurn(s, t) && Accounted(s)
    ensures Accounted(Next(s, t).state)
  {
    ApplyAccounted(s, t.nodes);
    var a := Apply(s, t.nodes);
    if Next(s, t).how.EventDue? {
      PopAccounted(a, t.top, t.handler);
    }
  }

  /** What may be added to the history by one turn. */
  predicate Extends(s: State, s': State) {
    && s.cancelled <= s'.cancelled
    && s.handled <= s'.handled
    && s.popped <= s'.popped
    && (forall n :: |s.handled| <= n < |s'.handled| ==> s'.handled[n].id !in s.cancelled)
  }

  lemma TurnExtends(s: State, t: Turn)
    requires CanTurn(s, t)
    ensures Extends(s, Next(s, t).state)
  {
    ApplyFrame(s, t.nodes);
    var a := Apply(s, t.nodes);
    if Next(s, t).how.EventDue? {
      var e := a.queue[t.top];
      var b := a.(time := e.time, queue := RemoveAt(a.queue, t.top), popped := a.popped + [e]);
      ApplyFrame(b.(handled := a.handled + [e]), t.handler);
    }
  }

  // ---------------------------------------------------------------- whole runs

  /** Time never runs backwards, and events leave the queue in order of time. */
  lemma {:induction false} TimeOrder(states: seq<State>, turns: seq<Turn>, i: nat, j: nat)
    requires IsRun(states, turns) && i <= j < |states|
    requires Ordered(states[0])
    requires forall n :: 0 <= n < |turns| ==> TimelyTurn(states[n], turns[n])
    ensures states[i].time <= states[j].time
    ensures Ordered(states[j])
    decreases j
  {
    if j > 0 {
      TimeOrder(states, turns, if i < j then i else j - 1, j - 1);
      TurnOrdered(states[j - 1], turns[j - 1]);
    }
  }

  /** Every event posted is still queued or has been popped, once; the popped ones ran unless cancelled. */
  lemma {:induction false} EventLedger(states: seq<State>, turns: seq<Turn>, j: nat)
    requires IsRun(states, turns) && j < |states| && Accounted(states[0])
    ensures Accounted(states[j])
  {
    if j > 0 {
      EventLedger(states, turns, j - 1);
      TurnAccounted(states[j - 1], turns[j - 1]);
    }
  }

  lemma ExtendsTransitive(a: State, b: State, c: State)
    requires Extends(a, b) && Extends(b, c)
    ensures Extends(a, c)
  {
    forall n | |a.handled| <= n < |c.handled| ensures c.handled[n].id !in a.cancelled {
      if n < |b.handled| {
        assert c.handled[n] == b.handled[n];
      }
    }
  }

  /** An event that has been cancelled is never handled afterwards, in any later part of the run. */
  lemma {:induction false} CancelledNeverHandled(states: seq<State>, turns: seq<Turn>, i: nat, j: nat)
    requires IsRun(states, turns) && i <= j < |states|
    ensures Extends(states[i], states[j])
    decreases j - i
  {
    if i < j {
      CancelledNeverHandled(states, turns, i, j - 1);
      TurnExtends(states[j - 1], turns[j - 1]);
      ExtendsTransitive(states[i], states[j - 1], states[j]);
    }
  }

  /** So nothing that the nodes cancel in some turn is handled from that turn on. */
  lemma CancelHolds(states: seq<State>, turns: seq<Turn>, i: nat, j: nat, id: nat)
    requires IsRun(states, turns) && i < j < |states| && Cancel(id) in turns[i].nodes
    ensures |states[i].handled| <= |states[j].handled|
    ensures forall n :: |states[i].handled| <= n < |states[j].handled| ==> states[j].handled[n].id != id
  {
    TurnMeaning(states[i], turns[i]);
    CancelledNeverHandled(states, turns, i + 1, j);
    var s, t := states[i], states[i + 1];
    forall n | |s.handled| <= n < |states[j].handled| ensures states[j].handled[n].id != id {
      if n < |t.handled| { assert states[j].handled[n] == t.handled[n]; }
    }
  }

  // ---------------------------------------------------------------- the loop itself

  datatype Exit = NoneLeft | PastLimit | Asserted | OutOfInputs

  /** `time_`, `eventq_` and `runtill_`; the valid flags of the events are the set `cancelled`. */
  class Simulator {
    var time: real
    var eventq: seq<SimEvent>
    var cancelled: set<nat>
    var posted: seq<SimEvent>
    var popped: seq<SimEvent>
    var handled: seq<SimEvent>
    const runtill: real

    constructor (runtill: real)
      ensures Abs() == State(0.0, [], {}, [], [], []) && this.runtill == runtill
    {
      time, eventq, cancelled, posted, popped, handled := 0.0, [], {}, [], [], [];
      this.runtill := runtill;
    }

    function Abs(): State
      reads this
    {
      State(time, eventq, cancelled, posted, popped, handled)
    }

    method Perform(es: seq<Effect>)
      modifies this
      ensures Abs() == Apply(old(Abs()), es)
    {
      var i := 0;
      while i < |es|
        invariant i <= |es|
        invariant Apply(Abs(), es[i..]) == Apply(old(Abs()), es)
      {
        ghost var before := Abs();
        match es[i] {
          case Post(event) => eventq, posted := eventq + [event], posted + [event];
          case Cancel(id) => cancelled := cancelled + {id};
        }
        assert Abs() == ApplyOne(before, es[i..][0]) && es[i..][1..] == es[i + 1..];
        i := i + 1;
      }
    }

    /** The end of a turn that takes the event on top. */
    method Take(k: nat, handler: seq<Effect>)
      requires k < |eventq|
      modifies this
      ensures Abs() == Pop(old(Abs()), k, handler)
    {
      var e := eventq[k];
      eventq := RemoveAt(eventq, k);
      popped := popped + [e];
      time := e.time;
      if e.id !in cancelled {
        handled := handled + [e];
        Perform(handler);
      }
    }

    method OneTurn(x: Input) returns (how: How, ghost t: Turn)
      modifies this
      ensures Meets(t, x) && CanTurn(old(Abs()), t)
      ensures Outcome(Abs(), how) == Next(old(Abs()), t)
    {
      Perform(x.nodes);
      var k: nat := 0;
      var nextTimer := if x.timerMs == -1 then INT_MAX else time + x.timerMs as real / 1000.0;
      var nextEvent := INT_MAX;
      if |eventq| != 0 {
        HasTop(eventq);
        k :| IsTop(eventq, k);
        nextEvent := eventq[k].time;
      }
      t := Turn(x.timerMs, x.nodes, x.handler, k);
      if x.timerMs == -1 && |eventq| == 0 {
        how := NothingLeft;
      } else if nextTimer < nextEvent {
        time := nextTimer;
        how := TimerDue;
      } else if |eventq| == 0 {
        how := AssertFails;
      } else {
        Take(k, x.handler);
        how := EventDue;
      }
    }

    /** A turn made at the end of a run: it makes the run longer or ends it. */
    method Advance(x: Input, ghost states: seq<State>, ghost turns: seq<Turn>) returns (how: How, ghost t: Turn)
      requires IsRun(states, turns) && states[|states| - 1] == Abs()
      modifies this
      ensures Meets(t, x)
      ensures how.TimerDue? || how.EventDue? ==> IsRun(states + [Abs()], turns + [t])
      ensures how.NothingLeft? || how.AssertFails? ==> EndsIn(how, states, turns + [t], Abs())
    {
      how, t := OneTurn(x);
      EndRun(states, turns, t);
      if how.TimerDue? || how.EventDue? {
        ExtendRun(states, turns, t);
      }
    }

    /** The loop, until it ends or there is nothing more to meet. */
    method Run(xs: seq<Input>) returns (exit: Exit, ghost states: seq<State>, ghost turns: seq<Turn>)
      modifies this
      ensures MeetAll(turns, xs)
      ensures |states| > 0 && states[0] == old(Abs())
      ensures Ended(exit, states, turns, Abs())
      ensures exit.OutOfInputs? ==> |turns| == |xs|
      ensures StopsAtLimit(states, runtill, exit.PastLimit?)
    {
      states, turns := [Abs()], [];
      for i := 0 to |xs|
        invariant |turns| == i && MeetAll(turns, xs)
        invariant states != [] && states[0] == old(Abs()) && states[|states| - 1] == Abs()
        invariant IsRun(states, turns)
        invariant StopsAtLimit(states, runtill, false)
      {
        ghost var t;
        var how;
        how, t := Advance(xs[i], states, turns);
        turns := turns + [t];
        if how.NothingLeft? { return NoneLeft, states, turns; }
        if how.AssertFails? { return Asserted, states, turns; }
        LimitSnoc(states, runtill, Abs());
        states := states + [Abs()];
        if runtill != -1.0 && time > runtill { return PastLimit, states, turns; }
      }
      exit := OutOfInputs;
    }
  }

  /** The turns made are the first of those offered. */
  predicate MeetAll(turns: seq<Turn>, xs: seq<Input>) {
    |turns| <= |xs| && forall i :: 0 <= i < |turns| ==> Meets(turns[i], xs[i])
  }

  /** Everything posted in time, and every timer due before the time that stands for "no timer". */
  predicate InTime(states: seq<State>, turns: seq<Turn>) {
    && |turns| <= |states|
    && forall n :: 0 <= n < |turns| ==>
         && CanTurn(states[n], turns[n]) && TimelyTurn(states[n], turns[n])
         && (turns[n].timerMs != -1 ==> states[n].time + turns[n].timerMs as real / 1000.0 < INT_MAX)
  }

  lemma TurnInTime(s: State, t: Turn)
    requires Ordered(s) && GoesOn(s, t) && TimelyTurn(s, t)
    ensures Next(s, t).state.time <= INT_MAX
    ensures Soonest(Next(s, t).state.time, s.time, Apply(s, t.nodes).queue, t.timerMs)
  {
    var a := Apply(s, t.nodes);
    ApplyFrame(s, t.nodes);
    ApplyTimely(s, t.nodes, s.time);
    ClockMovesToSoonest(s, t);
    assert a.queue != [] ==> a.queue[0].time <= INT_MAX;
    if Next(s, t).how.EventDue? {
      PopTime(a, t.top, t.handler);
    }
  }

  lemma RunInTime(states: seq<State>, turns: seq<Turn>, n: nat)
    requires IsRun(states, turns) && InTime(states, turns) && Ordered(states[0]) && n < |turns|
    ensures states[n + 1].time <= INT_MAX
    ensures Soonest(states[n + 1].time, states[n].time, Apply(states[n], turns[n].nodes).queue, turns[n].timerMs)
  {
    TimeOrder(states, turns, n, n);
    TurnInTime(states[n], turns[n]);
  }

  /**
   Over every run of the loop that is in time, however it ends: no assertion fails, the clock never
   passes INT_MAX, and each turn moves it to the soonest thing due.
   */
  lemma NeverAsserts(exit: Exit, states: seq<State>, turns: seq<Turn>, last: State)
    requires Ended(exit, states, turns, last) && states != [] && InTime(states, turns)
    requires Ordered(states[0]) && states[0].time <= INT_MAX
    ensures !exit.Asserted?
    ensures forall n :: 0 <= n < |states| ==> states[n].time <= INT_MAX
    ensures forall n :: 0 <= n < |states| - 1 ==>
              Soonest(states[n + 1].time, states[n].time, Apply(states[n], turns[n].nodes).queue, turns[n].timerMs)
  {
    var made := turns[..|states| - 1];
    assert IsRun(states, made) && InTime(states, made);
    forall n | 0 <= n < |states|
      ensures states[n].time <= INT_MAX
      ensures n > 0 ==> Soonest(states[n].time, states[n - 1].time, Apply(states[n - 1], turns[n - 1].nodes).queue, turns[n - 1].timerMs)
    {
      if n > 0 { RunInTime(states, made, n - 1); }
    }
    if exit.Asserted? {
      NullEventAssert(states[|states| - 1], turns[|states| - 1]);
    }
  }

  lemma LimitSnoc(states: seq<State>, runtill: real, s: State)
    requires states != [] && StopsAtLimit(states, runtill, false)
    ensures StopsAtLimit(states + [s], runtill, Past(s.time, runtill))
  {
    assert forall i :: 0 <= i < |states| ==> (states + [s])[i] == states[i];
  }

  predicate Meets(t: Turn, x: Input) {
    t.timerMs == x.timerMs && t.nodes == x.nodes && t.handler == x.handler
  }

  /** `runtill_` is -1 when there is no limit. */
  predicate Past(now: real, runtill: real) {
    runtill != -1.0 && now > runtill
  }

  /** How the turns made, the states passed and the last state hang together at each exit. */
  predicate Ended(exit: Exit, states: seq<State>, turns: seq<Turn>, last: State) {
    match exit
    case OutOfInputs => IsRun(states, turns) && last == states[|states| - 1]
    case PastLimit => IsRun(states, turns) && last == states[|states| - 1]
    case NoneLeft => EndsIn(NothingLeft, states, turns, last)
    case Asserted => EndsIn(AssertFails, states, turns, last)
  }

  predicate EndsIn(how: How, states: seq<State>, turns: seq<Turn>, last: State) {
    && |turns| == |states| > 0
    && IsRun(states, turns[..|turns| - 1])
    && CanTurn(states[|states| - 1], turns[|turns| - 1])
    && Next(states[|states| - 1], turns[|turns| - 1]) == Outcome(last, how)
  }

  /** With a limit set, the first state past it is the last. */
  predicate StopsAtLimit(states: seq<State>, runtill: real, past: bool)
  {
    && (forall i :: 0 < i < |states| - 1 ==> !Past(states[i].time, runtill))
    && (|states| > 1 ==> (Past(states[|states| - 1].time, runtill) <==> past))
    && (past ==> |states| > 1)
  }

  lemma ExtendRun(states: seq<State>, turns: seq<Turn>, t: Turn)
    requires IsRun(states, turns) && GoesOn(states[|states| - 1], t)
    ensures IsRun(states + [Next(states[|states| - 1], t).state], turns + [t])
  {
  }

  lemma EndRun(states: seq<State>, turns: seq<Turn>, t: Turn)
    requires IsRun(states, turns) && CanTurn(states[|states| - 1], t)
    ensures var o := Next(states[|states| - 1], t); EndsIn(o.how, states, turns + [t], o.state)
  {
    assert (turns + [t])[..|turns|] == turns;
  }

  lemma {:induction false} HasTop(q: seq<SimEvent>)
    requires q != []
    ensures exists k: nat :: IsTop(q, k)
  {
    var n := |q| - 1;
    if n == 0 {
      assert IsTop(q, 0);
    } else {
      HasTop(q[..n]);
      var k: nat :| IsTop(q[..n], k);
      assert IsTop(q, if q[n].time < q[k].time then n else k);
    }
  }
}
