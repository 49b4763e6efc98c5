/**
 The nodes' own event queues and the repeat-until-quiet loop over them. What a handler or a timer
 does is read from lists given in advance: posting to a node's queue, or running an event on a
 node at once. Past the end of a list nothing more is done, so every history with finitely many
 events is covered.
 */
module NodeEvents {
  import opened Collections

  datatype Posting = Posting(node: nat, event: nat)

  datatype Action = PostTo(node: nat, event: nat) | RunNow(node: nat, event: nat)

  /** What `run_expired_timers` does on one node, and its result: -1 or the ms to the next timer. */
  datatype TimerRun = TimerRun(next: int, actions: seq<Action>)

  predicate Fits(acts: seq<Action>, n: nat) {
    forall k :: 0 <= k < |acts| ==> acts[k].node < n
  }

  /** The events posted to node `i`, in order. */
  function Project(log: seq<Posting>, i: nat): (r: seq<nat>)
    ensures |r| <= |log|
  {
    if log == [] then []
    else
      var p := log[|log| - 1];
      Project(log[..|log| - 1], i) + (if p.node == i then [p.event] else [])
  }

  lemma ProjectSnoc(log: seq<Posting>, p: Posting, i: nat)
    ensures Project(log + [p], i) == Project(log, i) + (if p.node == i then [p.event] else [])
  {
    assert (log + [p])[..|log|] == log;
  }

  lemma {:induction false} ProjectAppend(a: seq<Posting>, b: seq<Posting>, i: nat)
    ensures Project(a + b, i) == Project(a, i) + Project(b, i)
    decreases |b|
  {
    if b == [] {
      assert a + b == a;
    } else {
      var front, p := b[..|b| - 1], b[|b| - 1];
      assert b == front + [p];
      assert a + b == (a + front) + [p];
      ProjectAppend(a, front, i);
      ProjectSnoc(front, p, i);
      ProjectSnoc(a + front, p, i);
    }
  }

  /** Nothing reaches a node exactly when nothing is posted to it. */
  lemma {:induction false} ProjectEmpty(log: seq<Posting>, i: nat)
    ensures Project(log, i) == [] <==> forall k :: 0 <= k < |log| ==> log[k].node != i
  {
    if log != [] {
      ProjectEmpty(log[..|log| - 1], i);
      assert forall k :: 0 <= k < |log| - 1 ==> log[..|log| - 1][k] == log[k];
    }
  }

  /** `more` was posted, and nothing was taken. */
  predicate Grown(q: seq<seq<nat>>, q': seq<seq<nat>>, more: seq<Posting>) {
    |q'| == |q| && forall i :: 0 <= i < |q| ==> q'[i] == q[i] + Project(more, i)
  }

  lemma GrownNothing(q: seq<seq<nat>>)
    ensures Grown(q, q, [])
  {
  }

  lemma GrownByNothing(q: seq<seq<nat>>, q': seq<seq<nat>>)
    requires Grown(q, q', [])
    ensures q' == q
  {
    forall i | 0 <= i < |q| ensures q'[i] == q[i] {
      assert q'[i] == q[i] + Project([], i);
    }
  }

  lemma GrownTwice(q: seq<seq<nat>>, q': seq<seq<nat>>, q'': seq<seq<nat>>, a: seq<Posting>, b: seq<Posting>)
    requires Grown(q, q', a) && Grown(q', q'', b)
    ensures Grown(q, q'', a + b)
  {
    forall i | 0 <= i < |q| ensures q''[i] == q[i] + Project(a + b, i) {
      ProjectAppend(a, b, i);
    }
  }

  /** First in, first out: what node `i` has handled and what it still has queued is what was posted to it. */
  predicate Fifo(log: seq<Posting>, handled: seq<seq<nat>>, eventq: seq<seq<nat>>) {
    && |handled| == |eventq|
    && forall i :: 0 <= i < |eventq| ==> Project(log, i) == handled[i] + eventq[i]
  }

  lemma FifoGrown(log: seq<Posting>, more: seq<Posting>, handled: seq<seq<nat>>, q: seq<seq<nat>>, q': seq<seq<nat>>)
    requires Fifo(log, handled, q) && Grown(q, q', more)
    ensures Fifo(log + more, handled, q')
  {
    forall i | 0 <= i < |q'| ensures Project(log + more, i) == handled[i] + q'[i] {
      ProjectAppend(log, more, i);
    }
  }

  /** Each list has only got longer. */
  predicate Longer(h: seq<seq<nat>>, h': seq<seq<nat>>) {
    |h| == |h'| && forall i :: 0 <= i < |h| ==> h[i] <= h'[i]
  }

  predicate AllEmpty(q: seq<seq<nat>>) {
    forall i :: 0 <= i < |q| ==> q[i] == []
  }

  // ---------------------------------------------------------------- what handlers and timers post

  /** What a list of actions posts, and what it leaves of the script. */
  datatype Effect = Effect(more: seq<Posting>, rest: seq<seq<Action>>)

  /** The actions of one handler or timer: an event run at once brings in what its own handler does. */
  function Effects(acts: seq<Action>, script: seq<seq<Action>>): (e: Effect)
    ensures |e.rest| <= |script|
    decreases |script|, |acts|
  {
    if acts == [] then Effect([], script)
    else
      var first := if acts[0].PostTo? then Effect([Posting(acts[0].node, acts[0].event)], script) else Handling(script);
      var later := Effects(acts[1..], first.rest);
      Effect(first.more + later.more, later.rest)
  }

  /** The handling of one event. */
  function Handling(script: seq<seq<Action>>): (e: Effect)
    ensures if script == [] then e == Effect([], []) else |e.rest| < |script|
    decreases |script|, 0
  {
    if script == [] then Effect([], []) else Effects(script[0], script[1..])
  }

  function PostingsOf(acts: seq<Action>): seq<Posting> {
    if acts == [] then [] else [Posting(acts[0].node, acts[0].event)] + PostingsOf(acts[1..])
  }

  /** Actions that run nothing at once post exactly what they say. */
  lemma {:induction false} PostsOnly(acts: seq<Action>, script: seq<seq<Action>>)
    requires forall k :: 0 <= k < |acts| ==> acts[k].PostTo?
    ensures Effects(acts, script) == Effect(PostingsOf(acts), script)
    decreases |acts|
  {
    if acts != [] {
      PostsOnly(acts[1..], script);
    }
  }

  /** What is left to do after the first `k` actions. */
  predicate Continues(acts: seq<Action>, script: seq<seq<Action>>, k: nat, more: seq<Posting>, now: seq<seq<Action>>)
    requires k <= |acts|
  {
    var left := Effects(acts[k..], now);
    Effects(acts, script) == Effect(more + left.more, left.rest)
  }

  lemma ContinuesOne(acts: seq<Action>, script: seq<seq<Action>>, k: nat, more: seq<Posting>, now: seq<seq<Action>>)
    requires k < |acts| && Continues(acts, script, k, more, now)
    ensures var e := if acts[k].PostTo? then Effect([Posting(acts[k].node, acts[k].event)], now) else Handling(now);
            Continues(acts, script, k + 1, more + e.more, e.rest)
  {
    assert acts[k..][0] == acts[k] && acts[k..][1..] == acts[k + 1..];
    var e := if acts[k].PostTo? then Effect([Posting(acts[k].node, acts[k].event)], now) else Handling(now);
    var later := Effects(acts[k + 1..], e.rest);
    assert more + (e.more + later.more) == (more + e.more) + later.more;
  }

  lemma ContinuesEnd(acts: seq<Action>, script: seq<seq<Action>>, more: seq<Posting>, now: seq<seq<Action>>)
    requires Continues(acts, script, |acts|, more, now)
    ensures Effects(acts, script) == Effect(more, now)
  {
    assert acts[|acts|..] == [] && more + [] == more;
  }

  /** The queues after the postings. */
  function Posted(q: seq<seq<nat>>, more: seq<Posting>): (r: seq<seq<nat>>)
    ensures |r| == |q|
  {
    seq(|q|, i requires 0 <= i < |q| => q[i] + Project(more, i))
  }

  lemma GrownIsPosted(q: seq<seq<nat>>, q': seq<seq<nat>>, more: seq<Posting>)
    requires Grown(q, q', more)
    ensures q' == Posted(q, more)
  {
  }

  // ---------------------------------------------------------------- the loop as functions

  /** The state of a network, but for the active node and what was run at once. */
  datatype Snapshot = Snapshot(
    eventq: seq<seq<nat>>, handled: seq<seq<nat>>, log: seq<Posting>, reports: seq<int>,
    timers: seq<TimerRun>, script: seq<seq<Action>>)

  function Add(a: Snapshot, e: Effect): Snapshot {
    a.(eventq := Posted(a.eventq, e.more), log := a.log + e.more, script := e.rest)
  }

  /** `run_expired_timers` on any node. */
  function Fire(a: Snapshot): (b: Snapshot)
    ensures |b.eventq| == |a.eventq| && |b.handled| == |a.handled|
  {
    if a.timers == [] then a.(reports := a.reports + [-1])
    else
      Add(a.(timers := a.timers[1..], reports := a.reports + [a.timers[0].next]),
          Effects(a.timers[0].actions, a.script))
  }

  /** The oldest event of node `j` leaves the queue and is handled. */
  function HandleOne(a: Snapshot, j: nat): (b: Snapshot)
    requires j < |a.eventq| == |a.handled| && a.eventq[j] != []
    ensures |b.eventq| == |a.eventq| && |b.handled| == |a.handled|
  {
    Add(a.(eventq := a.eventq[j := a.eventq[j][1..]], handled := a.handled[j := a.handled[j] + [a.eventq[j][0]]]),
        Handling(a.script))
  }

  function DrainAll(a: Snapshot, j: nat): (b: Snapshot)
    requires j < |a.eventq| == |a.handled|
    ensures |b.eventq| == |a.eventq| && |b.handled| == |a.handled| && b.eventq[j] == []
    decreases |a.script|, |a.eventq[j]|
  {
    if a.eventq[j] == [] then a else DrainAll(HandleOne(a, j), j)
  }

  function AfterVisit(a: Snapshot, j: nat): (b: Snapshot)
    requires j < |a.eventq| == |a.handled|
    ensures |b.eventq| == |a.eventq| && |b.handled| == |a.handled|
  {
    DrainAll(Fire(a), j)
  }

  /** The first `k` visits of a pass. */
  function AfterVisits(a: Snapshot, k: nat): (b: Snapshot)
    requires k <= |a.eventq| == |a.handled|
    ensures |b.eventq| == |a.eventq| && |b.handled| == |a.handled|
  {
    if k == 0 then a else AfterVisit(AfterVisits(a, k - 1), k - 1)
  }

  /** None of those visits found an event. */
  predicate Quiet(a: Snapshot, k: nat)
    requires k <= |a.eventq| == |a.handled|
  {
    k == 0 || (Quiet(a, k - 1) && Fire(AfterVisits(a, k - 1)).eventq[k - 1] == [])
  }

  /** What the timers of a visit post and return. */
  function TimerPosts(a: Snapshot): seq<Posting> {
    if a.timers == [] then [] else Effects(a.timers[0].actions, a.script).more
  }

  function TimerResult(a: Snapshot): int {
    if a.timers == [] then -1 else a.timers[0].next
  }

  /** The same for the first `k` visits of a pass. */
  function Visits(a: Snapshot, k: nat): (r: seq<seq<Posting>>)
    requires k <= |a.eventq| == |a.handled|
    ensures |r| == k
  {
    if k == 0 then [] else Visits(a, k - 1) + [TimerPosts(AfterVisits(a, k - 1))]
  }

  function Results(a: Snapshot, k: nat): (r: seq<int>)
    requires k <= |a.eventq| == |a.handled|
    ensures |r| == k
  {
    if k == 0 then [] else Results(a, k - 1) + [TimerResult(AfterVisits(a, k - 1))]
  }

  /** The loop's running minimum. */
  function Sooner(least: int, next: int): int {
    if next == -1 then least else if least == -1 then next else Min(least, next)
  }

  function SoonestOf(results: seq<int>): int {
    if results == [] then -1 else Sooner(SoonestOf(results[..|results| - 1]), results[|results| - 1])
  }

  function AfterPasses(a: Snapshot, n: nat): (b: Snapshot)
    requires |a.eventq| == |a.handled|
    ensures |b.eventq| == |a.eventq| && |b.handled| == |a.handled|
  {
    if n == 0 then a else AfterVisits(AfterPasses(a, n - 1), |a.eventq|)
  }

  /** `n` passes, of which the last is the first quiet one. */
  ghost predicate PassesUntilQuiet(a: Snapshot, n: nat)
    requires |a.eventq| == |a.handled|
  {
    n > 0 && Quiet(AfterPasses(a, n - 1), |a.eventq|) && NoneQuiet(a, n - 1)
  }

  class Network {
    var eventq: seq<seq<nat>>      // one queue for each node
    var active: nat                // the node the global instance pointers point to
    var timers: seq<TimerRun>      // what the coming calls of run_expired_timers do
    var script: seq<seq<Action>>   // what the coming calls of handle_event do
    var log: seq<Posting>          // every posting, the first queues included
    var handled: seq<seq<nat>>     // events handled off the queue, by the node active at the time
    var immediate: seq<seq<nat>>   // events run at once, by the node active at the time
    var reports: seq<int>          // what the calls of run_expired_timers returned

    ghost predicate Valid()
      reads this
    {
      && Fifo(log, handled, eventq)
      && |immediate| == |eventq|
      && (|eventq| > 0 ==> active < |eventq|)
      && (forall k :: 0 <= k < |script| ==> Fits(script[k], |eventq|))
      && (forall k :: 0 <= k < |timers| ==> Fits(timers[k].actions, |eventq|))
    }

    /** `n` nodes with empty queues, the first of them active. */
    constructor (n: nat, timers: seq<TimerRun>, script: seq<seq<Action>>)
      requires forall k :: 0 <= k < |script| ==> Fits(script[k], n)
      requires forall k :: 0 <= k < |timers| ==> Fits(timers[k].actions, n)
      ensures Valid() && |eventq| == n && AllEmpty(eventq) && AllEmpty(handled) && log == [] && reports == []
      ensures this.timers == timers && this.script == script
    {
      eventq, handled, immediate := seq(n, _ => []), seq(n, _ => []), seq(n, _ => []);
      active, log, reports := 0, [], [];
      this.timers, this.script := timers, script;
    }

    method SetActive(node: nat)
      modifies `active
      ensures active == node
    {
      if active == node { return; }
      active := node;
    }

    method PostEvent(node: nat, event: nat)
      requires Valid() && node < |eventq|
      modifies `eventq, `log
      ensures Valid() && log == old(log) + [Posting(node, event)]
      ensures Grown(old(eventq), eventq, [Posting(node, event)])
    {
      ghost var q := eventq;
      eventq := eventq[node := eventq[node] + [event]];
      log := log + [Posting(node, event)];
      forall i | 0 <= i < |q| ensures eventq[i] == q[i] + Project([Posting(node, event)], i) {
        ProjectSnoc([], Posting(node, event), i);
      }
      FifoGrown(old(log), [Posting(node, event)], handled, q, eventq);
    }

    /** The body of a handler or a timer. The node that was active is active again at the end. */
    method Perform(acts: seq<Action>) returns (ghost more: seq<Posting>)
      requires Valid() && Fits(acts, |eventq|)
      modifies `eventq, `log, `active, `script, `immediate
      ensures Valid() && active == old(active)
      ensures log == old(log) + more && Grown(old(eventq), eventq, more)
      ensures |script| <= old(|script|) && Longer(old(immediate), immediate)
      ensures Effect(more, script) == Effects(acts, old(script))
      decreases |script|, 2
    {
      more := [];
      assert acts[0..] == acts;
      for k := 0 to |acts|
        invariant Valid() && active == old(active)
        invariant log == old(log) + more && Grown(old(eventq), eventq, more)
        invariant |script| <= old(|script|) && Longer(old(immediate), immediate)
        invariant Continues(acts, old(script), k, more, script)
      {
        ContinuesOne(acts, old(script), k, more, script);
        ghost var q, m := eventq, more;
        ghost var extra;
        match acts[k] {
          case PostTo(node, event) =>
            PostEvent(node, event);
            extra := [Posting(node, event)];
          case RunNow(node, event) =>
            extra := RunOneEventNow(node, event);
        }
        GrownTwice(old(eventq), q, eventq, m, extra);
        more := m + extra;
        assert log == old(log) + more;
      }
      ContinuesEnd(acts, old(script), more, script);
    }

    /** `run_one_event_now` switches to the node, handles the event there and switches back. */
    method RunOneEventNow(node: nat, event: nat) returns (ghost more: seq<Posting>)
      requires Valid() && node < |eventq|
      modifies `eventq, `log, `active, `script, `immediate
      ensures Valid() && active == old(active)
      ensures log == old(log) + more && Grown(old(eventq), eventq, more)
      ensures |script| <= old(|script|) && Longer(old(immediate), immediate)
      ensures old(immediate[node]) + [event] <= immediate[node]
      ensures Effect(more, script) == Handling(old(script))
      decreases |script|, 1
    {
      var current := active;
      SetActive(node);
      immediate := immediate[active := immediate[active] + [event]];
      more := HandleEvent();
      SetActive(current);
    }

    /** What follows from handling one event: nothing once the list is used up. */
    method HandleEvent() returns (ghost more: seq<Posting>)
      requires Valid()
      modifies `eventq, `log, `active, `script, `immediate
      ensures Valid() && active == old(active)
      ensures log == old(log) + more && Grown(old(eventq), eventq, more)
      ensures |script| <= old(|script|) && Longer(old(immediate), immediate)
      ensures Effect(more, script) == Handling(old(script))
      decreases |script|, 0
    {
      if |script| == 0 {
        more := [];
        GrownNothing(eventq);
      } else {
        var acts := script[0];
        script := script[1..];
        more := Perform(acts);
      }
    }

    method ProcessOneBundleEvent(node: nat) returns (did: bool)
      requires Valid() && node < |eventq| && active == node
      modifies `eventq, `log, `active, `script, `immediate, `handled
      ensures Valid() && active == node
      ensures did <==> old(eventq[node]) != []
      ensures Now() == if did then HandleOne(old(Now()), node) else old(Now())
      ensures old(log) <= log && |script| <= old(|script|) && |eventq| == old(|eventq|)
      ensures Longer(old(handled), handled) && Longer(old(immediate), immediate)
      ensures did && old(script) != [] ==> |script| < old(|script|)
      ensures did && old(script) == [] ==> eventq == old(eventq)[node := old(eventq[node])[1..]]
      ensures did ==> old(handled[node]) + [old(eventq[node][0])] == handled[node]
    {
      if |eventq[node]| == 0 { return false; }
      var event := eventq[node][0];
      eventq := eventq[node := eventq[node][1..]];
      handled := handled[active := handled[active] + [event]];
      assert Fifo(log, handled, eventq) by {
        assert old(handled[node]) + old(eventq[node]) == handled[node] + eventq[node];
      }
      ghost var q := eventq;
      ghost var more := HandleEvent();
      GrownIsPosted(q, eventq, more);
      if more == [] { GrownByNothing(q, eventq); }
      did := true;
    }

    /** `run_expired_timers` for the active node. */
    method RunExpiredTimers() returns (next: int, ghost more: seq<Posting>)
      requires Valid()
      modifies `eventq, `log, `active, `script, `immediate, `timers, `reports
      ensures Valid() && active == old(active) && Longer(old(immediate), immediate)
      ensures Now() == Fire(old(Now()))
      ensures next == TimerResult(old(Now())) && more == TimerPosts(old(Now()))
    {
      if |timers| == 0 {
        next, more := -1, [];
      } else {
        next := timers[0].next;
        var acts := timers[0].actions;
        timers := timers[1..];
        more := Perform(acts);
        GrownIsPosted(old(eventq), eventq, more);
      }
      reports := reports + [next];
    }

    /** Handles one event after another until the node's queue is empty. */
    method Drain(node: nat) returns (did: bool)
      requires Valid() && node < |eventq| && active == node
      modifies `eventq, `log, `active, `script, `immediate, `handled
      ensures Valid() && active == node && Longer(old(handled), handled) && Longer(old(immediate), immediate)
      ensures did <==> old(eventq[node]) != []
      ensures Now() == DrainAll(old(Now()), node)
    {
      did := ProcessOneBundleEvent(node);
      var again := did;
      while again
        invariant Valid() && |eventq| == old(|eventq|) && active == node
        invariant !again ==> eventq[node] == []
        invariant DrainAll(Now(), node) == DrainAll(old(Now()), node)
        invariant Longer(old(handled), handled) && Longer(old(immediate), immediate)
        decreases |script|, |eventq[node]|, again
      {
        again := ProcessOneBundleEvent(node);
      }
    }

    /** One node's turn in a pass: its timers, then its queue. */
    method Visit(node: nat) returns (next: int, did: bool)
      requires Valid() && node < |eventq|
      modifies this
      ensures Valid() && Now() == AfterVisit(old(Now()), node)
      ensures did <==> Fire(old(Now())).eventq[node] != []
      ensures next == TimerResult(old(Now()))
    {
      SetActive(node);
      ghost var more;
      next, more := RunExpiredTimers();
      did := Drain(node);
    }

    function Now(): Snapshot
      reads this
    {
      Snapshot(eventq, handled, log, reports, timers, script)
    }

    /** A visit in a pass that began at `a`: the least timer result and whether the pass is quiet so far. */
    method NextVisit(j: nat, done: bool, least: int, ghost a: Snapshot) returns (done': bool, least': int)
      requires Valid() && j < |eventq| == |a.eventq| == |a.handled| && Now() == AfterVisits(a, j)
      requires (done <==> Quiet(a, j)) && least == SoonestOf(Results(a, j))
      modifies this
      ensures Valid() && Now() == AfterVisits(a, j + 1)
      ensures (done' <==> Quiet(a, j + 1)) && least' == SoonestOf(Results(a, j + 1))
    {
      OneMoreResult(a, j);
      var next, did;
      next, did := Visit(j);
      done', least' := done, least;
      if next != -1 {
        least' := if least == -1 then next else Min(least, next);
      }
      if did {
        done' := false;
      }
    }

    /** One pass over the nodes in the order of the table. */
    method Pass() returns (done: bool, nextTimer: int)
      requires Valid()
      modifies this
      ensures Valid() && |eventq| == old(|eventq|) && Now() == AfterVisits(old(Now()), old(|eventq|))
      ensures done <==> Quiet(old(Now()), old(|eventq|))
      ensures nextTimer == SoonestOf(Results(old(Now()), old(|eventq|)))
    {
      ghost var a := Now();
      done, nextTimer := true, -1;
      for j := 0 to |eventq|
        invariant Valid() && |eventq| == |a.eventq| && Now() == AfterVisits(a, j)
        invariant (done <==> Quiet(a, j)) && nextTimer == SoonestOf(Results(a, j))
      {
        done, nextTimer := NextVisit(j, done, nextTimer, a);
      }
    }

    /**
     Passes until one handles no event. `results` is what the timers returned and `visits` what they
     posted in that last pass.
     */
    method RunNodeEvents()
      returns (nextTimer: int, ghost results: seq<int>, ghost visits: seq<seq<Posting>>, ghost passes: nat)
      requires Valid()
      modifies this
      ensures Valid() && |eventq| == old(|eventq|) && old(log) <= log
      ensures PassesUntilQuiet(old(Now()), passes) && Now() == AfterPasses(old(Now()), passes)
      ensures |results| == |eventq| && Least(results, nextTimer)
      ensures EndsWith(reports, results) && EndsWith(log, Joined(visits))
      ensures exists q :: LastPass(q, eventq, visits)
    {
      var done := false;
      nextTimer, results, visits, passes := -1, [], [], 0;
      while !done
        invariant Valid() && |eventq| == old(|eventq|) && old(log) <= log
        invariant Now() == AfterPasses(old(Now()), passes)
        invariant if done then PassesUntilQuiet(old(Now()), passes) else NoneQuiet(old(Now()), passes)
        invariant done ==> EndedWell(Now(), nextTimer, results, visits)
        decreases !done, |timers|, |script|, !AllEmpty(eventq)
      {
        ghost var was := Now();
        done, nextTimer := Pass();
        results, visits := Results(was, |was.eventq|), Visits(was, |was.eventq|);
        PassFacts(was, |was.eventq|);
        PassEnds(was, Now(), done, nextTimer, results, visits);
        passes := passes + 1;
      }
    }
  }

  /** None of the first `n` passes is quiet. */
  ghost predicate NoneQuiet(a: Snapshot, n: nat)
    requires |a.eventq| == |a.handled|
  {
    forall m: nat :: m < n ==> !Quiet(AfterPasses(a, m), |a.eventq|)
  }

  /** What the loop returns belongs to its last pass. */
  ghost predicate EndedWell(b: Snapshot, nextTimer: int, results: seq<int>, visits: seq<seq<Posting>>) {
    && |results| == |b.eventq| && Least(results, nextTimer)
    && EndsWith(b.reports, results) && EndsWith(b.log, Joined(visits))
    && exists q :: LastPass(q, b.eventq, visits)
  }

  predicate EndsWith<T(==)>(s: seq<T>, tail: seq<T>) {
    |tail| <= |s| && s[|s| - |tail|..] == tail
  }

  function Joined(visits: seq<seq<Posting>>): seq<Posting> {
    if visits == [] then [] else Joined(visits[..|visits| - 1]) + visits[|visits| - 1]
  }

  lemma JoinedSnoc(log: seq<Posting>, visits: seq<seq<Posting>>, more: seq<Posting>)
    ensures log + Joined(visits) + more == log + Joined(visits + [more])
  {
    assert (visits + [more])[..|visits|] == visits;
  }

  /** What a visit of node `j` does; `did` says whether it handled an event. */
  predicate Visited(a: Snapshot, b: Snapshot, j: nat, next: int, did: bool, more: seq<Posting>) {
    && j < |a.eventq| == |b.eventq| && b.eventq[j] == []
    && (!did ==> Grown(a.eventq, b.eventq, more) && b.handled == a.handled && b.log == a.log + more)
    && b.reports == a.reports + [next]
    && next == (if a.timers == [] then -1 else a.timers[0].next)
    && a.log <= b.log
    && Spends(a, b)
    && (if a.timers == [] then b.timers == [] else |b.timers| < |a.timers|)
    && (a.timers == [] && |b.script| == |a.script| ==> b.eventq == a.eventq[j := []] && (did <==> a.eventq[j] != []))
  }

  /** Timers and script are only used up. */
  predicate Spends(a: Snapshot, b: Snapshot) {
    |b.timers| <= |a.timers| && |b.script| <= |a.script|
  }

  /** A pass that began at `a` and has come to `b`, after a visit of each of the first nodes. */
  predicate PassedSoFar(a: Snapshot, b: Snapshot, done: bool, least: int, results: seq<int>, visits: seq<seq<Posting>>) {
    && |a.eventq| == |b.eventq| && |results| == |visits| <= |a.eventq|
    && Least(results, least) && b.reports == a.reports + results
    && (done ==> QuietPass(a, b, visits))
    && a.log <= b.log
    && Spends(a, b)
    && (Spends(b, a) ==> Cleared(a.eventq, b.eventq, |visits|, done))
  }

  predicate QuietPass(a: Snapshot, b: Snapshot, visits: seq<seq<Posting>>) {
    && b.handled == a.handled && b.log == a.log + Joined(visits)
    && QuietSoFar(a.eventq, b.eventq, visits)
  }

  lemma QuietPassVisit(a: Snapshot, b: Snapshot, c: Snapshot, visits: seq<seq<Posting>>, next: int, more: seq<Posting>)
    requires QuietPass(a, b, visits) && Visited(b, c, |visits|, next, false, more)
    ensures QuietPass(a, c, visits + [more])
  {
    QuietVisit(a.eventq, b.eventq, c.eventq, visits, more);
    JoinedSnoc(a.log, visits, more);
  }

  lemma ClearedVisit(a: Snapshot, b: Snapshot, c: Snapshot, done: bool, j: nat, next: int, did: bool, more: seq<Posting>)
    requires Visited(b, c, j, next, did, more) && Spends(a, b) && |a.eventq| == |b.eventq|
    requires Spends(b, a) ==> Cleared(a.eventq, b.eventq, j, done)
    ensures Spends(a, c) && (Spends(c, a) ==> Cleared(a.eventq, c.eventq, j + 1, done && !did))
  {
    if Spends(c, a) {
      assert b.timers == [] && Spends(b, a);
      assert c.eventq == b.eventq[j := []];
    }
  }

  lemma PostedGrows(q: seq<seq<nat>>, more: seq<Posting>)
    ensures Grown(q, Posted(q, more), more)
    ensures more == [] ==> Posted(q, more) == q
  {
    if more == [] {
      GrownByNothing(q, Posted(q, more));
    }
  }

  lemma FireFacts(a: Snapshot)
    ensures var b := Fire(a);
            && Grown(a.eventq, b.eventq, TimerPosts(a)) && b.handled == a.handled && b.log == a.log + TimerPosts(a)
            && b.reports == a.reports + [TimerResult(a)] && Spends(a, b)
            && (if a.timers == [] then b.timers == [] && b.script == a.script && b.eventq == a.eventq
                else |b.timers| < |a.timers|)
  {
    if a.timers == [] {
      GrownNothing(a.eventq);
    } else {
      PostedGrows(a.eventq, TimerPosts(a));
    }
  }

  lemma {:induction false} DrainFacts(a: Snapshot, j: nat)
    requires j < |a.eventq| == |a.handled|
    ensures var b := DrainAll(a, j);
            && a.log <= b.log && b.reports == a.reports && b.timers == a.timers && |b.script| <= |a.script|
            && (a.eventq[j] == [] ==> b == a)
            && (|b.script| == |a.script| ==> b.eventq == a.eventq[j := []])
    decreases |a.script|, |a.eventq[j]|
  {
    if a.eventq[j] != [] {
      PostedGrows(a.eventq[j := a.eventq[j][1..]], Handling(a.script).more);
      DrainFacts(HandleOne(a, j), j);
    }
  }

  lemma VisitFacts(a: Snapshot, j: nat)
    requires j < |a.eventq| == |a.handled|
    ensures Visited(a, AfterVisit(a, j), j, TimerResult(a), Fire(a).eventq[j] != [], TimerPosts(a))
  {
    FireFacts(a);
    DrainFacts(Fire(a), j);
  }

  /** As many timer runs are used up as there are results, and those are what they returned, in order. */
  predicate TimersUsed(a: Snapshot, b: Snapshot, results: seq<int>) {
    && b.timers == (if |results| < |a.timers| then a.timers[|results|..] else [])
    && b.reports == a.reports + results
    && forall j :: 0 <= j < |results| ==> results[j] == if j < |a.timers| then a.timers[j].next else -1
  }

  lemma OneMoreTimer(a: Snapshot, b: Snapshot, results: seq<int>, j: nat)
    requires TimersUsed(a, b, results) && j < |b.eventq| == |b.handled|
    ensures TimersUsed(a, AfterVisit(b, j), results + [TimerResult(b)])
  {
    DrainFacts(Fire(b), j);
    assert (a.reports + results) + [TimerResult(b)] == a.reports + (results + [TimerResult(b)]);
  }

  /** Each visit of a pass uses up one timer run, in order, and reports its result; there may be none left. */
  lemma {:induction false} TimersInOrder(a: Snapshot, k: nat)
    requires k <= |a.eventq| == |a.handled|
    ensures TimersUsed(a, AfterVisits(a, k), Results(a, k))
  {
    if k == 0 {
      assert a.reports + [] == a.reports;
    } else {
      TimersInOrder(a, k - 1);
      OneMoreTimer(a, AfterVisits(a, k - 1), Results(a, k - 1), k - 1);
    }
  }

  lemma NothingPassed(a: Snapshot)
    ensures PassedSoFar(a, a, true, -1, [], [])
  {
    assert a.reports + [] == a.reports && a.log + [] == a.log;
  }

  lemma OneMoreResult(a: Snapshot, k: nat)
    requires k < |a.eventq| == |a.handled|
    ensures SoonestOf(Results(a, k + 1)) == Sooner(SoonestOf(Results(a, k)), TimerResult(AfterVisits(a, k)))
  {
    assert Results(a, k + 1)[..k] == Results(a, k);
  }

  /** One more visit of a pass. */
  lemma PassStep(a: Snapshot, b: Snapshot, quiet: bool, least: int, results: seq<int>, visits: seq<seq<Posting>>)
    requires PassedSoFar(a, b, quiet, least, results, visits) && |visits| < |b.eventq| == |b.handled|
    ensures var j := |visits|;
            PassedSoFar(a, AfterVisit(b, j), quiet && Fire(b).eventq[j] == [], Sooner(least, TimerResult(b)),
                        results + [TimerResult(b)], visits + [TimerPosts(b)])
  {
    var j := |visits|;
    VisitFacts(b, j);
    VisitPasses(a, b, AfterVisit(b, j), quiet, least, results, visits, TimerResult(b), Fire(b).eventq[j] != [], TimerPosts(b));
  }

  lemma {:induction false} PassFacts(a: Snapshot, k: nat)
    requires k <= |a.eventq| == |a.handled|
    ensures PassedSoFar(a, AfterVisits(a, k), Quiet(a, k), SoonestOf(Results(a, k)), Results(a, k), Visits(a, k))
  {
    if k == 0 {
      NothingPassed(a);
    } else {
      PassFacts(a, k - 1);
      PassStep(a, AfterVisits(a, k - 1), Quiet(a, k - 1), SoonestOf(Results(a, k - 1)), Results(a, k - 1), Visits(a, k - 1));
      OneMoreResult(a, k - 1);
    }
  }

  lemma VisitPasses(a: Snapshot, b: Snapshot, c: Snapshot, done: bool, least: int, results: seq<int>,
                    visits: seq<seq<Posting>>, next: int, did: bool, more: seq<Posting>)
    requires PassedSoFar(a, b, done, least, results, visits) && Visited(b, c, |visits|, next, did, more)
    ensures PassedSoFar(a, c, done && !did, Sooner(least, next), results + [next], visits + [more])
  {
    LeastSnoc(results, least, next);
    ClearedVisit(a, b, c, done, |visits|, next, did, more);
    if done && !did { QuietPassVisit(a, b, c, visits, next, more); }
  }

  /** What a whole pass comes to: a last one, or one that has brought the end nearer. */
  lemma PassEnds(a: Snapshot, b: Snapshot, done: bool, least: int, results: seq<int>, visits: seq<seq<Posting>>)
    requires PassedSoFar(a, b, done, least, results, visits) && |visits| == |a.eventq|
    ensures EndsWith(b.reports, results)
    ensures done ==> LastPass(a.eventq, b.eventq, visits) && EndsWith(b.log, Joined(visits))
    ensures !done ==> !Spends(b, a) || (AllEmpty(b.eventq) && !AllEmpty(a.eventq))
  {
    if !done && Spends(b, a) { AllCleared(a.eventq, b.eventq); }
  }

  /** `m` is the least of the results that are not -1, or -1 when all are. */
  predicate Least(results: seq<int>, m: int) {
    && (forall k :: 0 <= k < |results| ==> results[k] == -1 || (m != -1 && m <= results[k]))
    && (m == -1 || m in results)
  }

  lemma LeastSnoc(results: seq<int>, m: int, next: int)
    requires Least(results, m)
    ensures Least(results + [next], if next == -1 then m else if m == -1 then next else Min(m, next))
  {
    assert (results + [next])[|results|] == next;
    assert forall k :: 0 <= k < |results| ==> (results + [next])[k] == results[k];
  }

  /** What the timers of later visits of a pass posted to node `i`, after its own visit. */
  function Late(visits: seq<seq<Posting>>, i: nat): seq<nat> {
    if |visits| <= i + 1 then []
    else Late(visits[..|visits| - 1], i) + Project(visits[|visits| - 1], i)
  }

  lemma LateSnoc(visits: seq<seq<Posting>>, more: seq<Posting>, i: nat)
    ensures Late(visits + [more], i) == if i < |visits| then Late(visits, i) + Project(more, i) else []
  {
    assert (visits + [more])[..|visits|] == visits;
  }

  /** Everything the timers of a pass posted to node `i`. */
  function Onto(visits: seq<seq<Posting>>, i: nat): seq<nat> {
    if visits == [] then [] else Onto(visits[..|visits| - 1], i) + Project(visits[|visits| - 1], i)
  }

  lemma OntoSnoc(visits: seq<seq<Posting>>, more: seq<Posting>, i: nat)
    ensures Onto(visits + [more], i) == Onto(visits, i) + Project(more, i)
  {
    assert (visits + [more])[..|visits|] == visits;
  }

  lemma {:induction false} OntoEmpty(visits: seq<seq<Posting>>, i: nat)
    requires Onto(visits, i) == []
    ensures forall k :: 0 <= k < |visits| ==> Project(visits[k], i) == []
  {
    if visits != [] {
      OntoEmpty(visits[..|visits| - 1], i);
      assert forall k :: 0 <= k < |visits| - 1 ==> visits[..|visits| - 1][k] == visits[k];
    }
  }

  /** No node visited so far had an event when its turn came, nor was one posted to it before or then. */
  predicate EmptyOnTurn(before: seq<seq<nat>>, visits: seq<seq<Posting>>)
    decreases |visits|
  {
    || visits == []
    || (var j := |visits| - 1;
        j < |before| && EmptyOnTurn(before, visits[..j]) && before[j] == [] && Onto(visits, j) == [])
  }

  lemma EmptyOnTurnSnoc(before: seq<seq<nat>>, visits: seq<seq<Posting>>, more: seq<Posting>)
    requires EmptyOnTurn(before, visits) && |visits| < |before| && before[|visits|] == []
    requires Onto(visits + [more], |visits|) == []
    ensures EmptyOnTurn(before, visits + [more])
  {
    assert (visits + [more])[..|visits|] == visits;
  }

  /** What that means for one node: an empty queue, and nothing posted up to its turn. */
  lemma {:induction false} EmptyOnTurnMeaning(before: seq<seq<nat>>, visits: seq<seq<Posting>>, i: nat, k: nat)
    requires EmptyOnTurn(before, visits) && k <= i < |visits|
    ensures i < |before| && before[i] == [] && Project(visits[k], i) == []
    decreases |visits|
  {
    if i < |visits| - 1 {
      EmptyOnTurnMeaning(before, visits[..|visits| - 1], i, k);
    } else {
      OntoEmpty(visits, i);
    }
  }

  /** A pass, up to some visit, in which nothing has been handled. */
  predicate QuietSoFar(before: seq<seq<nat>>, q: seq<seq<nat>>, visits: seq<seq<Posting>>) {
    && EmptyOnTurn(before, visits) && |q| == |before|
    && (forall i :: 0 <= i < |visits| ==> q[i] == Late(visits, i))
    && (forall i :: |visits| <= i < |q| ==> q[i] == before[i] + Onto(visits, i))
  }

  /** A whole such pass: every queue was empty on its turn, and holds what later visits posted. */
  predicate LastPass(before: seq<seq<nat>>, q: seq<seq<nat>>, visits: seq<seq<Posting>>) {
    && |q| == |before| == |visits| && EmptyOnTurn(before, visits)
    && forall i :: 0 <= i < |q| ==> q[i] == Late(visits, i)
  }

  lemma ThreeEmpty(a: seq<nat>, b: seq<nat>, c: seq<nat>)
    requires (a + b) + c == []
    ensures a == [] && b == [] && c == []
  {
    assert |(a + b) + c| == |a| + |b| + |c|;
  }

  lemma QuietTurn(before: seq<seq<nat>>, q: seq<seq<nat>>, q': seq<seq<nat>>, visits: seq<seq<Posting>>, more: seq<Posting>)
    requires QuietSoFar(before, q, visits) && |visits| < |q|
    requires Grown(q, q', more) && q'[|visits|] == []
    ensures EmptyOnTurn(before, visits + [more])
  {
    var j := |visits|;
    assert q'[j] == q[j] + Project(more, j);
    ThreeEmpty(before[j], Onto(visits, j), Project(more, j));
    OntoSnoc(visits, more, j);
    EmptyOnTurnSnoc(before, visits, more);
  }

  lemma QuietVisit(before: seq<seq<nat>>, q: seq<seq<nat>>, q': seq<seq<nat>>, visits: seq<seq<Posting>>, more: seq<Posting>)
    requires QuietSoFar(before, q, visits) && |visits| < |q|
    requires Grown(q, q', more) && q'[|visits|] == []
    ensures QuietSoFar(before, q', visits + [more])
  {
    QuietTurn(before, q, q', visits, more);
    forall i | 0 <= i <= |visits| ensures q'[i] == Late(visits + [more], i) {
      LateSnoc(visits, more, i);
    }
    forall i | |visits| < i < |q| ensures q'[i] == before[i] + Onto(visits + [more], i) {
      OntoSnoc(visits, more, i);
    }
  }

  // ---------------------------------------------------------------- when all queues are empty at the end

  /** No timer posted to a node that had been visited already in the pass. */
  predicate NoLatePosting(visits: seq<seq<Posting>>) {
    forall j, k :: 0 <= j < |visits| && 0 <= k < |visits[j]| ==> j <= visits[j][k].node
  }

  lemma {:induction false} LateEmpty(visits: seq<seq<Posting>>, i: nat)
    ensures Late(visits, i) == [] <==> forall j :: i < j < |visits| ==> Project(visits[j], i) == []
  {
    if |visits| > i + 1 {
      var front := visits[..|visits| - 1];
      LateEmpty(front, i);
      assert forall j :: 0 <= j < |front| ==> front[j] == visits[j];
      if Late(visits, i) == [] {
        assert Late(front, i) == [];
      }
    }
  }

  lemma PostedOnTime(q: seq<seq<nat>>, visits: seq<seq<Posting>>, j: nat, k: nat)
    requires |q| == |visits| && forall i :: 0 <= i < |q| ==> q[i] == Late(visits, i)
    requires AllEmpty(q) && j < |visits| && k < |visits[j]|
    ensures j <= visits[j][k].node
  {
    var i := visits[j][k].node;
    ProjectEmpty(visits[j], i);
    if i < j {
      LateEmpty(visits, i);
    }
  }

  lemma NothingLate(visits: seq<seq<Posting>>, i: nat)
    requires NoLatePosting(visits) && i < |visits|
    ensures Late(visits, i) == []
  {
    forall j | i < j < |visits| ensures Project(visits[j], i) == [] {
      ProjectEmpty(visits[j], i);
    }
    LateEmpty(visits, i);
  }

  /**
   The loop is left with all queues empty if and only if no timer in the last pass posted to a node
   already visited. Otherwise it returns with events still queued.
   */
  lemma QuiescentIff(before: seq<seq<nat>>, q: seq<seq<nat>>, visits: seq<seq<Posting>>)
    requires LastPass(before, q, visits)
    ensures AllEmpty(q) <==> NoLatePosting(visits)
  {
    if AllEmpty(q) {
      forall j, k | 0 <= j < |visits| && 0 <= k < |visits[j]| ensures j <= visits[j][k].node {
        PostedOnTime(q, visits, j, k);
      }
    } else if NoLatePosting(visits) {
      forall i | 0 <= i < |q| ensures q[i] == [] {
        NothingLate(visits, i);
      }
    }
  }

  /** Two nodes with nothing queued, and one timer: the second node's, which posts to the first. */
  const LATE_TIMER: Snapshot :=
    Snapshot([[], []], [[], []], [], [], [TimerRun(-1, []), TimerRun(-1, [PostTo(0, 7)])], [])

  lemma OnePosting(p: Posting)
    ensures Project([p], p.node) == [p.event]
    ensures forall i: nat :: i != p.node ==> Project([p], i) == []
  {
    forall i: nat ensures Project([p], i) == if p.node == i then [p.event] else [] {
      ProjectSnoc([], p, i);
      assert [] + [p] == [p];
    }
  }

  /** The first node finds nothing on its turn, and nor does the second. */
  lemma LeftBehind()
    ensures Quiet(LATE_TIMER, 2)
    ensures AfterVisits(LATE_TIMER, 2).eventq == [[7], []]
  {
    var a, late := LATE_TIMER, Posting(0, 7);
    PostsOnly([], []);
    PostedGrows(a.eventq, []);
    var b := Fire(a);
    assert b.eventq == a.eventq && b.timers == [TimerRun(-1, [PostTo(0, 7)])] && b.script == [];
    assert AfterVisits(a, 0) == a && DrainAll(b, 0) == b && AfterVisits(a, 1) == b;
    PostsOnly([PostTo(0, 7)], []);
    assert PostingsOf([PostTo(0, 7)]) == [late] + PostingsOf([PostTo(0, 7)][1..]) == [late];
    OnePosting(late);
    var c := Fire(b);
    assert c.eventq == [[7], []];
    assert DrainAll(c, 1) == c && AfterVisits(a, 2) == c;
    assert Quiet(a, 0) && Quiet(a, 1);
  }

  /** So the loop, run on such a network, returns with an event still queued. */
  method LeaveBehind() returns (net: Network, nextTimer: int)
    ensures fresh(net) && net.eventq == [[7], []]
  {
    net := new Network(2, LATE_TIMER.timers, []);
    assert net.eventq == LATE_TIMER.eventq && net.handled == LATE_TIMER.handled;
    ghost var results, visits, passes;
    nextTimer, results, visits, passes := net.RunNodeEvents();
    LeftBehind();
    assert AfterPasses(LATE_TIMER, 0) == LATE_TIMER;
    assert passes == 1;
    assert AfterPasses(LATE_TIMER, 1) == AfterVisits(LATE_TIMER, 2);
  }

  /**
   The first `j` queues are empty now and the others are as before; `done` says whether the first
   `j` were empty to begin with.
   */
  predicate Cleared(q: seq<seq<nat>>, q': seq<seq<nat>>, j: nat, done: bool) {
    && |q'| == |q|
    && (forall i :: 0 <= i < |q| ==> q'[i] == if i < j then [] else q[i])
    && (done <==> forall i :: 0 <= i < |q| && i < j ==> q[i] == [])
  }

  lemma AllCleared(q: seq<seq<nat>>, q': seq<seq<nat>>)
    requires Cleared(q, q', |q|, false)
    ensures AllEmpty(q') && !AllEmpty(q)
  {
  }
}
