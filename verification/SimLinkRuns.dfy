/** What a simulated link guarantees over whole runs. */
module SimLinkRuns {
  import opened Collections
  import opened SimLinkModel

  datatype Timed = Timed(at: real, event: Event)

  /** A run the source survives: every event can happen, and no assertion fails. */
  predicate IsRun(s: Link, es: seq<Timed>)
    decreases |es|
  {
    || es == []
    || (&& Enabled(s, es[0].at, es[0].event)
        && AssertionsHold(s, es[0].event)
        && IsRun(Step(s, es[0].at, es[0].event), es[1..]))
  }

  function After(s: Link, es: seq<Timed>): (t: Link)
    requires IsRun(s, es)
    decreases |es|
  {
    if es == [] then s else After(Step(s, es[0].at, es[0].event), es[1..])
  }

  lemma {:induction false} RunKeeps(s: Link, es: seq<Timed>)
    requires Inv(s) && IsRun(s, es)
    ensures Inv(After(s, es))
    decreases |es|
  {
    if es != [] {
      StepKeeps(s, es[0].at, es[0].event);
      RunKeeps(Step(s, es[0].at, es[0].event), es[1..]);
    }
  }

  // ---------------------------------------------------------------- exactly once, in order

  function StartedBundles(q: seq<Started>): (r: seq<nat>) {
    seq(|q|, i requires 0 <= i < |q| => q[i].bundle)
  }

  function ReportedBundles(q: seq<Report>): (r: seq<nat>) {
    seq(|q|, i requires 0 <= i < |q| => q[i].bundle)
  }

  function PendingBundles(q: seq<Pending>): (r: seq<nat>) {
    seq(|q|, i requires 0 <= i < |q| => q[i].bundle)
  }

  lemma ChannelOrder(leg: Leg, started: seq<Started>, done: seq<Report>, q: seq<Pending>)
    requires Channel(leg, started, done, q)
    ensures StartedBundles(started) == ReportedBundles(done) + PendingBundles(q)
  {
  }

  lemma SendingOrder(s: Link)
    requires Sending(s)
    ensures StartedBundles(s.started) == s.inFlight + (if s.pending.Some? then [s.pending.value.bundle] else [])
    ensures StartedBundles(s.started) <= s.enqueued
  {
    if s.pending.Some? {
      assert s.inFlight + [s.queue[0]] <= s.inFlight + s.queue;
    }
  }

  /**
   Exactly once, first in first out, over every run: the bundles started are those put in flight
   and then the one being clocked out; they are those that arrived and then those still to
   arrive; they are those reported and then those still to be reported; and they are the first
   of the bundles ever queued.
   */
  lemma ExactlyOnceInOrder(s: Link, es: seq<Timed>)
    requires Initial(s) && IsRun(s, es)
    ensures var t := After(s, es); var b := StartedBundles(t.started);
            && b == t.inFlight + (if t.pending.Some? then [t.pending.value.bundle] else [])
            && b == ReportedBundles(t.arrived) + PendingBundles(t.arrivals)
            && b == ReportedBundles(t.acked) + PendingBundles(t.transmitted)
            && b <= t.enqueued && t.enqueued == t.inFlight + t.queue
  {
    InitialHolds(s);
    RunKeeps(s, es);
    var t := After(s, es);
    SendingOrder(t);
    ChannelOrder(Arriving, t.started, t.arrived, t.arrivals);
    ChannelOrder(Reporting(t.reliable), t.started, t.acked, t.transmitted);
  }

  lemma InitialHolds(s: Link)
    requires Initial(s)
    ensures Inv(s) && Clocked(s.started, |s.inFlight|, s.now) && Punctual(s)
  {
  }

  /** No lost wakeup: after every run each timer is set for exactly the front of its queue. */
  lemma NoLostWakeup(s: Link, es: seq<Timed>, at: real, e: Event)
    requires Initial(s) && IsRun(s, es)
    ensures TimersSet(After(s, es))
    ensures Fires(e) && Enabled(After(s, es), at, e) && (e.TransmittedFires? ==> After(s, es).contact)
            ==> AssertionsHold(After(s, es), e)
  {
    InitialHolds(s);
    RunKeeps(s, es);
    if Enabled(After(s, es), at, e) { WhenAssertionsHold(After(s, es), at, e); }
  }

  // ---------------------------------------------------------------- never idle with work

  /** An open link with something queued is clocking a bundle out. */
  predicate Working(s: Link) {
    s.isOpen && s.queue != [] ==> s.pending.Some?
  }

  /**
   The one step that leaves an open link idle with work: the contact comes up when a bundle was
   queued on an idle link after `open_contact` had found nothing to start.
   */
  lemma StallsOnlyOnContactUp(s: Link, t: real, e: Event)
    requires Inv(s) && Working(s) && Enabled(s, t, e) && AssertionsHold(s, e)
    ensures Working(Step(s, t, e)) <==> !(e.ContactUp? && s.pending.None? && s.queue != [])
  {
    if e.InflightFires? { PutInFlightKeeps(s.(now := t, inflightTimer := None)); }
  }

  lemma {:induction false} Do(s: Link, es: seq<Timed>, x: Timed) returns (more: seq<Timed>)
    requires IsRun(s, es) && Enabled(After(s, es), x.at, x.event) && AssertionsHold(After(s, es), x.event)
    ensures more == es + [x] && IsRun(s, more) && After(s, more) == Step(After(s, es), x.at, x.event)
    decreases |es|
  {
    more := es + [x];
    if es != [] {
      var t := Step(s, es[0].at, es[0].event);
      var rest := Do(t, es[1..], x);
      assert more[1..] == rest;
    } else {
      assert more[1..] == [];
      assert IsRun(Step(s, x.at, x.event), []);
    }
  }

  /** And it does happen: open on an empty queue, queue, come up. */
  lemma StallHappens(s: Link) returns (es: seq<Timed>)
    requires Initial(s)
    ensures IsRun(s, es) && !Working(After(s, es))
  {
    es := Do(s, [], Timed(s.now, OpenContact(true, 0.0, 0.0)));
    es := Do(s, es, Timed(s.now, Queue(7, 0.0, 0.0)));
    es := Do(s, es, Timed(s.now, ContactUp));
  }

  /** An open link clocking out one bundle for a second. */
  lemma ClockingOut(s: Link) returns (es: seq<Timed>)
    requires Initial(s)
    ensures IsRun(s, es)
    ensures var t := After(s, es);
            && t.contact && t.isOpen && t.queue == [7] && t.now == s.now && t.pending == Some(Pending(7, s.now + 1.0))
            && t.transmittedTimer == Some(DueTime(Reporting(s.reliable), Started(7, s.now + 1.0, 0.0)))
            && t.transmitted == [Pending(7, DueTime(Reporting(s.reliable), Started(7, s.now + 1.0, 0.0)))]
  {
    es := Do(s, [], Timed(s.now, OpenContact(true, 0.0, 0.0)));
    es := Do(s, es, Timed(s.now, ContactUp));
    es := Do(s, es, Timed(s.now, Queue(7, 1.0, 0.0)));
  }

  /**
   A contact lost while a bundle is being clocked out: opening it again, or the report falling due
   before that, meets a failing assertion.
   */
  lemma LostContactFails(s: Link) returns (es: seq<Timed>)
    requires Initial(s)
    ensures IsRun(s, es)
    ensures var t := After(s, es); var reopen := OpenContact(true, 0.0, 0.0);
            && Enabled(t, t.now, reopen) && !AssertionsHold(t, reopen)
            && Enabled(t, t.now + 1.0, TransmittedFires) && !AssertionsHold(t, TransmittedFires)
  {
    es := ClockingOut(s);
    es := Do(s, es, Timed(s.now, CloseContact));
  }

  // ---------------------------------------------------------------- when things happen

  predicate Monotone(q: seq<Started>) {
    forall i, j :: 0 <= i < j < |q| ==> q[i].inflight <= q[j].inflight
  }

  /** Bundles are clocked out one after the other; the first `sent` of them already are. */
  predicate Clocked(q: seq<Started>, sent: nat, now: real) {
    && Monotone(q)
    && (forall x :: x in q ==> x.latency >= 0.0)
    && (forall i :: 0 <= i < sent && i < |q| ==> q[i].inflight <= now)
  }

  lemma LoadClocked(q: seq<Started>, now: real, x: Started)
    requires Clocked(q, |q|, now) && now <= x.inflight && x.latency >= 0.0
    ensures Clocked(q + [x], |q|, now)
  {
  }

  lemma QueueClocked(s: Link, b: nat, d: real, l: real)
    requires Sending(s) && Clocked(s.started, |s.inFlight|, s.now) && d >= 0.0 && l >= 0.0
    ensures var r := QueueBundle(s, b, d, l); Clocked(r.started, |r.inFlight|, r.now)
  {
    if s.isOpen && s.pending.None? {
      LoadClocked(s.started, s.now, Started((s.queue + [b])[0], s.now + d, l));
    }
  }

  lemma OpenClocked(s: Link, up: bool, d: real, l: real)
    requires Sending(s) && Clocked(s.started, |s.inFlight|, s.now) && d >= 0.0 && l >= 0.0
    requires up && s.queue != [] ==> s.pending.None?
    ensures var r := Open(s, up, d, l); Clocked(r.started, |r.inFlight|, r.now)
  {
    if up && s.queue != [] { LoadClocked(s.started, s.now, Started(s.queue[0], s.now + d, l)); }
  }

  lemma ClockedLater(s: Link, t: real)
    requires Sending(s) && Clocked(s.started, |s.inFlight|, s.now) && s.now <= t
    ensures Sending(s.(now := t)) && Clocked(s.started, |s.inFlight|, t)
  {
  }

  lemma StepClocked(s: Link, t: real, e: Event)
    requires Inv(s) && Clocked(s.started, |s.inFlight|, s.now) && Enabled(s, t, e) && AssertionsHold(s, e)
    ensures var r := Step(s, t, e); Clocked(r.started, |r.inFlight|, r.now)
  {
    ClockedLater(s, t);
    match e
    case Queue(b, d, l) => QueueClocked(s.(now := t), b, d, l);
    case OpenContact(up, d, l) => OpenClocked(s.(now := t), up, d, l);
    case InflightFires(d, l) => InflightClocked(s.(now := t, inflightTimer := None), d, l);
    case _ =>
  }

  lemma InflightClocked(s: Link, d: real, l: real)
    requires Sending(s) && Clocked(s.started, |s.inFlight|, s.now) && s.pending.Some? && d >= 0.0 && l >= 0.0
    ensures var r := HandleInflight(s, d, l); Clocked(r.started, |r.inFlight|, r.now)
  {
    if s.pending.value.time <= s.now {
      PutInFlightKeeps(s);
      var u := PutInFlight(s);
      assert Clocked(s.started, |s.started|, s.now);
      if u.queue != [] { LoadClocked(s.started, s.now, Started(u.queue[0], s.now + d, l)); }
    }
  }

  /** The latest due time of the first `k + 1` bundles. */
  function PrefixMax(leg: Leg, q: seq<Started>, k: nat): (m: real)
    requires k < |q|
    ensures m >= DueTime(leg, q[k])
  {
    var d := DueTime(leg, q[k]);
    if k == 0 then d else var m := PrefixMax(leg, q, k - 1); if m > d then m else d
  }

  lemma {:induction false} PrefixMaxStable(leg: Leg, q: seq<Started>, more: seq<Started>, k: nat)
    requires k < |q|
    ensures PrefixMax(leg, q + more, k) == PrefixMax(leg, q, k)
  {
    if k > 0 { PrefixMaxStable(leg, q, more, k - 1); }
  }

  /** Simulated time does not pass a timer that is pending; so a timer fires when it was set for. */
  predicate Prompt(s: Link, t: real) {
    && (s.inflightTimer.Some? ==> t <= s.inflightTimer.value)
    && (s.arrivalTimer.Some? ==> t <= s.arrivalTimer.value)
    && (s.transmittedTimer.Some? ==> t <= s.transmittedTimer.value)
  }

  /** Reports so far came exactly at the prefix maxima, and nothing is overdue. */
  predicate OnTime(leg: Leg, started: seq<Started>, done: seq<Report>, q: seq<Pending>, now: real)
    requires |started| == |done| + |q|
  {
    && (forall k :: 0 <= k < |done| ==> done[k].at == PrefixMax(leg, started, k) && done[k].at <= now)
    && (q != [] ==> now <= q[0].time)
  }

  lemma LoadOnTime(leg: Leg, started: seq<Started>, done: seq<Report>, q: seq<Pending>, now: real, x: Started)
    requires |started| == |done| + |q| && OnTime(leg, started, done, q, now)
    requires now <= x.inflight && x.latency >= 0.0
    ensures OnTime(leg, started + [x], done, q + [Pending(x.bundle, DueTime(leg, x))], now)
  {
    forall k | 0 <= k < |done| ensures PrefixMax(leg, started + [x], k) == PrefixMax(leg, started, k) {
      PrefixMaxStable(leg, started, [x], k);
    }
  }

  /** Everything drained at the front's due time is drained at its own prefix maximum. */
  lemma {:induction false} DrainAtPrefixMax(leg: Leg, started: seq<Started>, done: seq<Report>, q: seq<Pending>, now: real, i: nat)
    requires Channel(leg, started, done, q)
    requires forall k :: 0 <= k < |done| ==> done[k].at == PrefixMax(leg, started, k) && done[k].at <= now
    requires q != [] && q[0].time == now && i < Due(q, now)
    ensures PrefixMax(leg, started, |done| + i) == now
  {
    if i > 0 {
      DrainAtPrefixMax(leg, started, done, q, now, i - 1);
      assert q[i].time <= now;
    } else if |done| > 0 {
      assert done[|done| - 1].at <= now;
    }
  }

  lemma DrainOnTime(leg: Leg, started: seq<Started>, done: seq<Report>, q: seq<Pending>, now: real)
    requires Channel(leg, started, done, q)
    requires forall k :: 0 <= k < |done| ==> done[k].at == PrefixMax(leg, started, k) && done[k].at <= now
    requires q != [] && q[0].time == now
    ensures var n := Due(q, now);
            && |started| == |done + Reports(q, n, now)| + |q[n..]|
            && OnTime(leg, started, done + Reports(q, n, now), q[n..], now)
  {
    var n := Due(q, now);
    forall k | |done| <= k < |done| + n ensures PrefixMax(leg, started, k) == now {
      DrainAtPrefixMax(leg, started, done, q, now, k - |done|);
    }
  }

  predicate Punctual(s: Link)
    requires Channels(s)
  {
    && OnTime(Arriving, s.started, s.arrived, s.arrivals, s.now)
    && OnTime(Reporting(s.reliable), s.started, s.acked, s.transmitted, s.now)
  }

  lemma LoadArrivalOnTime(s: Link, d: real, l: real)
    requires Channels(s) && Punctual(s) && s.queue != [] && d >= 0.0 && l >= 0.0
    ensures var u := Load(s, d, l);
            && |u.started| == |u.arrived| + |u.arrivals|
            && OnTime(Arriving, u.started, u.arrived, u.arrivals, u.now)
  {
    var x := Started(s.queue[0], s.now + d, l);
    var due := Pending(x.bundle, DueTime(Arriving, x));
    LoadOnTime(Arriving, s.started, s.arrived, s.arrivals, s.now, x);
    assert Load(s, d, l).started == s.started + [x] && Load(s, d, l).arrivals == s.arrivals + [due];
  }

  lemma LoadReportOnTime(s: Link, d: real, l: real)
    requires Channels(s) && Punctual(s) && s.queue != [] && d >= 0.0 && l >= 0.0
    ensures var u := Load(s, d, l);
            && |u.started| == |u.acked| + |u.transmitted|
            && OnTime(Reporting(u.reliable), u.started, u.acked, u.transmitted, u.now)
  {
    var x := Started(s.queue[0], s.now + d, l);
    var due := Pending(x.bundle, DueTime(Reporting(s.reliable), x));
    LoadOnTime(Reporting(s.reliable), s.started, s.acked, s.transmitted, s.now, x);
    assert Load(s, d, l).started == s.started + [x] && Load(s, d, l).transmitted == s.transmitted + [due];
  }

  lemma ReschedulePunctual(s: Link)
    requires Channels(s) && Punctual(s)
    ensures Channels(Reschedule(s)) && Punctual(Reschedule(s))
  {
  }

  lemma StartPunctual(s: Link, d: real, l: real)
    requires Channels(s) && Punctual(s) && s.queue != [] && s.pending.None? && d >= 0.0 && l >= 0.0
    ensures Channels(StartNext(s, d, l)) && Punctual(StartNext(s, d, l))
  {
    LoadChannels(s, d, l);
    LoadArrivalOnTime(s, d, l);
    LoadReportOnTime(s, d, l);
    ReschedulePunctual(Load(s, d, l));
  }

  /** Until the next timer is due nothing becomes overdue. */
  lemma PunctualLater(s: Link, t: real)
    requires Inv(s) && Punctual(s) && s.now <= t && Prompt(s, t)
    ensures Channels(s.(now := t)) && Punctual(s.(now := t))
  {
  }

  lemma QueuePunctual(s: Link, b: nat, d: real, l: real)
    requires Channels(s) && Punctual(s) && d >= 0.0 && l >= 0.0
    ensures Channels(QueueBundle(s, b, d, l)) && Punctual(QueueBundle(s, b, d, l))
  {
    var u := s.(queue := s.queue + [b], enqueued := s.enqueued + [b]);
    assert Channels(u) && Punctual(u);
    if s.isOpen && s.pending.None? { StartPunctual(u, d, l); }
  }

  lemma OpenPunctual(s: Link, up: bool, d: real, l: real)
    requires Channels(s) && Punctual(s) && d >= 0.0 && l >= 0.0 && (up && s.queue != [] ==> s.pending.None?)
    ensures Channels(Open(s, up, d, l)) && Punctual(Open(s, up, d, l))
  {
    var u := s.(contact := true);
    assert Channels(u) && Punctual(u);
    if up && s.queue != [] { StartPunctual(u, d, l); }
  }

  lemma InflightPunctual(s: Link, d: real, l: real)
    requires Channels(s) && Punctual(s) && s.pending.Some? && d >= 0.0 && l >= 0.0
    ensures Channels(HandleInflight(s, d, l)) && Punctual(HandleInflight(s, d, l))
  {
    if s.pending.value.time > s.now {
      ReschedulePunctual(s);
    } else {
      var u := PutInFlight(s);
      assert Channels(u) && Punctual(u);
      if u.queue == [] {
        ReschedulePunctual(u);
      } else {
        StartPunctual(u, d, l);
        ReschedulePunctual(StartNext(u, d, l));
      }
    }
  }

  lemma ArrivalPunctual(s: Link)
    requires Channels(s) && Punctual(s) && s.arrivals != [] && s.arrivals[0].time == s.now
    ensures Channels(HandleArrivals(s)) && Punctual(HandleArrivals(s))
  {
    DrainChannel(Arriving, s.started, s.arrived, s.arrivals, Due(s.arrivals, s.now), s.now);
    DrainOnTime(Arriving, s.started, s.arrived, s.arrivals, s.now);
    ReschedulePunctual(DrainArrivals(s));
  }

  lemma TransmittedPunctual(s: Link)
    requires Channels(s) && Punctual(s) && s.transmitted != [] && s.transmitted[0].time == s.now
    ensures Channels(HandleTransmitted(s)) && Punctual(HandleTransmitted(s))
  {
    DrainChannel(Reporting(s.reliable), s.started, s.acked, s.transmitted, Due(s.transmitted, s.now), s.now);
    DrainOnTime(Reporting(s.reliable), s.started, s.acked, s.transmitted, s.now);
    ReschedulePunctual(DrainTransmitted(s));
  }

  lemma StepPunctual(s: Link, t: real, e: Event)
    requires Inv(s) && Punctual(s) && Enabled(s, t, e) && AssertionsHold(s, e) && Prompt(s, t)
    ensures Channels(Step(s, t, e)) && Punctual(Step(s, t, e))
  {
    PunctualLater(s, t);
    match e
    case Queue(b, d, l) => QueuePunctual(s.(now := t), b, d, l);
    case OpenContact(up, d, l) => OpenPunctual(s.(now := t), up, d, l);
    case InflightFires(d, l) => InflightPunctual(s.(now := t, inflightTimer := None), d, l);
    case ArrivalFires => ArrivalPunctual(s.(now := t, arrivalTimer := None));
    case TransmittedFires => TransmittedPunctual(s.(now := t, transmittedTimer := None));
    case _ =>
  }

  predicate IsPromptRun(s: Link, es: seq<Timed>)
    requires IsRun(s, es)
    decreases |es|
  {
    es == [] || (Prompt(s, es[0].at) && IsPromptRun(Step(s, es[0].at, es[0].event), es[1..]))
  }

  lemma StepReliable(s: Link, t: real, e: Event)
    requires Enabled(s, t, e) && AssertionsHold(s, e)
    ensures Step(s, t, e).reliable == s.reliable
  {
  }

  lemma {:induction false} RunTimes(s: Link, es: seq<Timed>)
    requires Inv(s) && Clocked(s.started, |s.inFlight|, s.now) && IsRun(s, es)
    ensures var t := After(s, es);
            Inv(t) && Clocked(t.started, |t.inFlight|, t.now) && t.reliable == s.reliable
    ensures Punctual(s) && IsPromptRun(s, es) ==> Punctual(After(s, es))
    decreases |es|
  {
    if es != [] {
      var t := Step(s, es[0].at, es[0].event);
      StepKeeps(s, es[0].at, es[0].event);
      StepClocked(s, es[0].at, es[0].event);
      StepReliable(s, es[0].at, es[0].event);
      if Punctual(s) && IsPromptRun(s, es) { StepPunctual(s, es[0].at, es[0].event); }
      RunTimes(t, es[1..]);
    }
  }

  lemma {:induction false} PrefixMaxIs(leg: Leg, q: seq<Started>, k: nat) returns (last: nat)
    requires k < |q|
    ensures last <= k && PrefixMax(leg, q, k) == DueTime(leg, q[last])
    ensures forall j :: 0 <= j <= k ==> PrefixMax(leg, q, k) >= DueTime(leg, q[j])
  {
    last := k;
    if k > 0 {
      var before := PrefixMaxIs(leg, q, k - 1);
      if PrefixMax(leg, q, k - 1) > DueTime(leg, q[k]) { last := before; }
    }
  }

  /** At `at` the latencies of the first `k + 1` bundles are over, and not before. */
  predicate ArrivesAt(q: seq<Started>, k: nat, at: real)
    requires k < |q|
  {
    && (forall j :: 0 <= j <= k ==> q[j].inflight + q[j].latency <= at)
    && (exists j :: 0 <= j <= k && q[j].inflight + q[j].latency == at)
  }

  /** At `at` they are acknowledged, and not before; without reliability it is enough that they have left. */
  predicate ReportedAt(reliable: bool, q: seq<Started>, k: nat, at: real)
    requires k < |q|
  {
    && (forall j :: 0 <= j <= k ==> q[j].inflight + (if reliable then 2.0 * q[j].latency else 0.0) <= at)
    && (exists j :: 0 <= j <= k && q[j].inflight + (if reliable then 2.0 * q[j].latency else 0.0) == at)
  }

  lemma ArrivalTime(q: seq<Started>, k: nat)
    requires k < |q|
    ensures ArrivesAt(q, k, PrefixMax(Arriving, q, k))
  {
    var j := PrefixMaxIs(Arriving, q, k);
    assert q[j].inflight + q[j].latency == PrefixMax(Arriving, q, k);
    assert forall i :: 0 <= i <= k ==> DueTime(Arriving, q[i]) == q[i].inflight + q[i].latency;
  }

  lemma ReportTime(reliable: bool, q: seq<Started>, k: nat)
    requires k < |q|
    ensures ReportedAt(reliable, q, k, PrefixMax(Reporting(reliable), q, k))
  {
    var j := PrefixMaxIs(Reporting(reliable), q, k);
    assert q[j].inflight + (if reliable then 2.0 * q[j].latency else 0.0) == PrefixMax(Reporting(reliable), q, k);
    assert forall i :: 0 <= i <= k ==>
      DueTime(Reporting(reliable), q[i]) == q[i].inflight + (if reliable then 2.0 * q[i].latency else 0.0);
  }

  /**
   Blocking behind earlier bundles, over every prompt run and whatever the delays and latencies:
   the k-th arrival and the k-th report happen exactly when the last of the first k + 1 bundles is
   due. An arrival is due its latency after its bundle is clocked out; a report twice that on a
   reliable link, and at once on any other.
   */
  lemma EffectiveTimes(s: Link, es: seq<Timed>)
    requires Initial(s) && IsRun(s, es) && IsPromptRun(s, es)
    ensures var t := After(s, es);
            && |t.arrived| <= |t.started| && |t.acked| <= |t.started|
            && (forall k :: 0 <= k < |t.arrived| ==> ArrivesAt(t.started, k, t.arrived[k].at))
            && (forall k :: 0 <= k < |t.acked| ==> ReportedAt(s.reliable, t.started, k, t.acked[k].at))
  {
    InitialHolds(s);
    RunTimes(s, es);
    var t := After(s, es);
    forall k | 0 <= k < |t.arrived| ensures ArrivesAt(t.started, k, t.arrived[k].at) {
      ArrivalTime(t.started, k);
    }
    forall k | 0 <= k < |t.acked| ensures ReportedAt(s.reliable, t.started, k, t.acked[k].at) {
      ReportTime(s.reliable, t.started, k);
    }
  }

  /**
   The bundle a step starts, if it starts one: queued on an open link that is idle, first in the queue
   of a link that opens, or next in the queue of one that has clocked its bundle out. It is clocked
   out the step's own delay later, and travels with the step's own latency.
   */
  function StartedBy(s: Link, at: real, e: Event): (r: seq<Started>)
    requires Sending(s) && Enabled(s, at, e) && AssertionsHold(s, e)
  {
    match e
    case Queue(b, delay, latency) =>
      if s.isOpen && s.pending.None? then [Started((s.queue + [b])[0], at + delay, latency)] else []
    case OpenContact(up, delay, latency) =>
      if up && s.queue != [] then [Started(s.queue[0], at + delay, latency)] else []
    case InflightFires(delay, latency) =>
      if s.pending.value.time <= at && |s.queue| > 1 then [Started(s.queue[1], at + delay, latency)] else []
    case _ => []
  }

  function AllStarted(s: Link, es: seq<Timed>): (r: seq<Started>)
    requires Inv(s) && IsRun(s, es)
    decreases |es|
  {
    if es == [] then []
    else
      StepKeeps(s, es[0].at, es[0].event);
      StartedBy(s, es[0].at, es[0].event) + AllStarted(Step(s, es[0].at, es[0].event), es[1..])
  }

  lemma StepStarts(s: Link, at: real, e: Event)
    requires Sending(s) && Enabled(s, at, e) && AssertionsHold(s, e)
    ensures Step(s, at, e).started == s.started + StartedBy(s, at, e)
  {
    match e
    case InflightFires(d, l) => InflightStarts(s.(now := at, inflightTimer := None), d, l);
    case _ =>
  }

  lemma InflightStarts(s: Link, d: real, l: real)
    requires Sending(s) && s.pending.Some?
    ensures HandleInflight(s, d, l).started == s.started +
              if s.pending.value.time <= s.now && |s.queue| > 1 then [Started(s.queue[1], s.now + d, l)] else []
  {
    assert PutInFlight(s).queue == s.queue[1..];
  }

  /** Over every run the bundles started are those, and no others. */
  lemma {:induction false} WhatStarts(s: Link, es: seq<Timed>)
    requires Inv(s) && IsRun(s, es)
    ensures After(s, es).started == s.started + AllStarted(s, es)
    decreases |es|
  {
    if es != [] {
      StepKeeps(s, es[0].at, es[0].event);
      StepStarts(s, es[0].at, es[0].event);
      WhatStarts(Step(s, es[0].at, es[0].event), es[1..]);
    }
  }

  lemma {:induction false} ReportAfterArrival(q: seq<Started>, k: nat)
    requires k < |q| && (forall x :: x in q ==> x.latency >= 0.0)
    ensures PrefixMax(Reporting(true), q, k) >= PrefixMax(Arriving, q, k) >= q[k].inflight
  {
    assert q[k] in q;
    if k > 0 { ReportAfterArrival(q, k - 1); }
  }

  /** On a reliable link no bundle is reported before it arrives, nor arrives before it has left. */
  lemma AckNeverPrecedesArrival(s: Link, es: seq<Timed>, k: nat)
    requires Initial(s) && s.reliable && IsRun(s, es) && IsPromptRun(s, es)
    requires k < |After(s, es).acked| && k < |After(s, es).arrived|
    ensures var t := After(s, es);
            k < |t.started| && t.acked[k].at >= t.arrived[k].at >= t.started[k].inflight
  {
    InitialHolds(s);
    RunTimes(s, es);
    ReportAfterArrival(After(s, es).started, k);
  }

  predicate Sorted(q: seq<Pending>) {
    forall i, j :: 0 <= i < j < |q| ==> q[i].time <= q[j].time
  }

  lemma SortedChannel(leg: Leg, started: seq<Started>, done: seq<Report>, q: seq<Pending>, latency: real)
    requires Channel(leg, started, done, q) && Monotone(started)
    requires forall i :: 0 <= i < |started| ==> started[i].latency == latency
    ensures Sorted(q)
  {
    forall i, j | 0 <= i < j < |q| ensures q[i].time <= q[j].time {
      assert started[|done| + i].inflight <= started[|done| + j].inflight;
    }
  }

  /** With one latency throughout, both queues are sorted by time: nothing is ever blocked. */
  lemma SortedIfLatencyConstant(s: Link, es: seq<Timed>, latency: real)
    requires Initial(s) && IsRun(s, es)
    requires forall x :: x in After(s, es).started ==> x.latency == latency
    ensures Sorted(After(s, es).arrivals) && Sorted(After(s, es).transmitted)
  {
    InitialHolds(s);
    RunTimes(s, es);
    var t := After(s, es);
    assert forall i :: 0 <= i < |t.started| ==> t.started[i] in t.started;
    SortedChannel(Arriving, t.started, t.arrived, t.arrivals, latency);
    SortedChannel(Reporting(t.reliable), t.started, t.acked, t.transmitted, latency);
  }
}
