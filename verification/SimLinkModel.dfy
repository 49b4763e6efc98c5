/**
 A simulated link as a value: one bundle being clocked out, two first-in first-out queues of
 coming arrivals and coming transmission reports, and one timer for each of the three.
 `SimLink` refines these steps in place.
 */
module SimLinkModel {
  import opened Collections

  /** Something due at a time. */
  datatype Pending = Pending(bundle: nat, time: real)

  /** A bundle whose transmission was started: when it is clocked out, and the latency then. */
  datatype Started = Started(bundle: nat, inflight: real, latency: real)

  /** A report handed to a node, and when. */
  datatype Report = Report(bundle: nat, at: real)

  /** Fields from `enqueued` on are auxiliary: they record what has happened so far. */
  datatype Link = Link(
    now: real, reliable: bool, contact: bool, isOpen: bool,
    queue: seq<nat>,
    pending: Option<Pending>, arrivals: seq<Pending>, transmitted: seq<Pending>,
    inflightTimer: Option<real>, arrivalTimer: Option<real>, transmittedTimer: Option<real>,
    enqueued: seq<nat>, started: seq<Started>, inFlight: seq<nat>,
    arrived: seq<Report>, acked: seq<Report>)

  /** `delay` is the token bucket's answer and `latency` the table's, should a bundle start. */
  datatype Event =
    | Queue(bundle: nat, delay: real, latency: real)
    | OpenContact(up: bool, delay: real, latency: real)
    | ContactUp
    | CloseContact
    | InflightFires(delay: real, latency: real)
    | ArrivalFires
    | TransmittedFires

  /** The two things a started bundle leads to: its arrival, and the report to its sender. */
  datatype Leg = Arriving | Reporting(reliable: bool)

  /** When a bundle's arrival or report is due. Without reliability the report does not wait. */
  function DueTime(leg: Leg, x: Started): (t: real) {
    match leg
    case Arriving => x.inflight + x.latency
    case Reporting(reliable) => if reliable then x.inflight + x.latency * 2.0 else x.inflight
  }

  // ---------------------------------------------------------------- steps

  function FrontTime(q: seq<Pending>): (t: Option<real>) {
    if q == [] then None else Some(q[0].time)
  }

  function PendingTime(p: Option<Pending>): (t: Option<real>) {
    if p.None? then None else Some(p.value.time)
  }

  /** A timer already pending is left alone. */
  function Reschedule(s: Link): (t: Link) {
    s.(inflightTimer := if s.inflightTimer.None? then PendingTime(s.pending) else s.inflightTimer,
       arrivalTimer := if s.arrivalTimer.None? then FrontTime(s.arrivals) else s.arrivalTimer,
       transmittedTimer := if s.transmittedTimer.None? then FrontTime(s.transmitted) else s.transmittedTimer)
  }

  /** What `start_next_bundle` does before it reschedules the timers. */
  function Load(s: Link, delay: real, latency: real): (t: Link)
    requires s.queue != []
  {
    var x := Started(s.queue[0], s.now + delay, latency);
    s.(pending := Some(Pending(x.bundle, x.inflight)),
       arrivals := s.arrivals + [Pending(x.bundle, DueTime(Arriving, x))],
       transmitted := s.transmitted + [Pending(x.bundle, DueTime(Reporting(s.reliable), x))],
       started := s.started + [x])
  }

  function StartNext(s: Link, delay: real, latency: real): (t: Link)
    requires s.queue != [] && s.pending.None?
  {
    Reschedule(Load(s, delay, latency))
  }

  function Removed(q: seq<nat>, b: nat): (r: seq<nat>) {
    if q == [] then [] else if q[0] == b then q[1..] else [q[0]] + Removed(q[1..], b)
  }

  /** The bundle has left the sender. */
  function PutInFlight(s: Link): (t: Link)
    requires s.pending.Some?
  {
    s.(inFlight := s.inFlight + [s.pending.value.bundle],
       queue := Removed(s.queue, s.pending.value.bundle), pending := None)
  }

  function HandleInflight(s: Link, delay: real, latency: real): (t: Link)
    requires s.pending.Some?
  {
    if s.pending.value.time > s.now then Reschedule(s)
    else if PutInFlight(s).queue == [] then Reschedule(PutInFlight(s))
    else Reschedule(StartNext(PutInFlight(s), delay, latency))
  }

  /** How many entries at the front of `q` are due; a later one blocks those behind it. */
  function Due(q: seq<Pending>, now: real): (n: nat)
    ensures n <= |q|
    ensures forall i :: 0 <= i < n ==> q[i].time <= now
    ensures n < |q| ==> q[n].time > now
  {
    if q == [] || q[0].time > now then 0 else 1 + Due(q[1..], now)
  }

  function Reports(q: seq<Pending>, n: nat, now: real): (r: seq<Report>)
    requires n <= |q|
  {
    seq(n, i requires 0 <= i < n => Report(q[i].bundle, now))
  }

  function DrainArrivals(s: Link): (t: Link) {
    var n := Due(s.arrivals, s.now);
    s.(arrived := s.arrived + Reports(s.arrivals, n, s.now), arrivals := s.arrivals[n..])
  }

  function DrainTransmitted(s: Link): (t: Link) {
    var n := Due(s.transmitted, s.now);
    s.(acked := s.acked + Reports(s.transmitted, n, s.now), transmitted := s.transmitted[n..])
  }

  function HandleArrivals(s: Link): (t: Link) {
    Reschedule(DrainArrivals(s))
  }

  function HandleTransmitted(s: Link): (t: Link) {
    Reschedule(DrainTransmitted(s))
  }

  /** The router queues a bundle; an open, idle link starts on its queue at once. */
  function QueueBundle(s: Link, b: nat, delay: real, latency: real): (t: Link) {
    var s' := s.(queue := s.queue + [b], enqueued := s.enqueued + [b]);
    if s.isOpen && s.pending.None? then StartNext(s', delay, latency) else s'
  }

  function Open(s: Link, up: bool, delay: real, latency: real): (t: Link)
    requires up && s.queue != [] ==> s.pending.None?
  {
    var s' := s.(contact := true);
    if up && s.queue != [] then StartNext(s', delay, latency) else s'
  }

  predicate Fires(e: Event) {
    e.InflightFires? || e.ArrivalFires? || e.TransmittedFires?
  }

  /** What can happen at time `t`. A timer fires no earlier than it was set for. */
  predicate Enabled(s: Link, t: real, e: Event) {
    && s.now <= t
    && match e
       case Queue(b, d, l) => b !in s.queue && d >= 0.0 && l >= 0.0
       case OpenContact(_, d, l) => !s.contact && d >= 0.0 && l >= 0.0
       case ContactUp => s.contact && !s.isOpen
       case CloseContact => s.contact
       case InflightFires(d, l) => s.inflightTimer.Some? && s.inflightTimer.value <= t && d >= 0.0 && l >= 0.0
       case ArrivalFires => s.arrivalTimer.Some? && s.arrivalTimer.value <= t
       case TransmittedFires => s.transmittedTimer.Some? && s.transmittedTimer.value <= t
  }

  /** None of the source's assertions fails on this step. */
  predicate AssertionsHold(s: Link, e: Event) {
    match e
    case Queue(_, _, _) => true
    case OpenContact(up, _, _) => up && s.queue != [] ==> s.pending.None?
    case ContactUp => true
    case CloseContact => true
    case InflightFires(_, _) => s.pending.Some?
    case ArrivalFires => s.arrivals != []
    case TransmittedFires => s.transmitted != [] && s.contact
  }

  function Step(s: Link, t: real, e: Event): (r: Link)
    requires Enabled(s, t, e) && AssertionsHold(s, e)
  {
    match e
    case Queue(b, d, l) => QueueBundle(s.(now := t), b, d, l)
    case OpenContact(up, d, l) => Open(s.(now := t), up, d, l)
    case ContactUp => s.(now := t, isOpen := true)
    case CloseContact => s.(now := t, isOpen := false, contact := false)
    case InflightFires(d, l) => HandleInflight(s.(now := t, inflightTimer := None), d, l)
    case ArrivalFires => HandleArrivals(s.(now := t, arrivalTimer := None))
    case TransmittedFires => HandleTransmitted(s.(now := t, transmittedTimer := None))
  }

  // ---------------------------------------------------------------- invariants

  /** The sender's side: bundles leave in the order they were queued, each once. */
  predicate Sending(s: Link) {
    && NoDuplicates(s.queue)
    && s.enqueued == s.inFlight + s.queue
    && |s.started| == |s.inFlight| + (if s.pending.Some? then 1 else 0)
    && (forall i :: 0 <= i < |s.inFlight| ==> s.started[i].bundle == s.inFlight[i])
    && (s.pending.Some? ==>
          && s.queue != [] && s.queue[0] == s.pending.value.bundle
          && var x := s.started[|s.started| - 1]; s.pending.value == Pending(x.bundle, x.inflight))
  }

  /** `done` then `q` is the list of started bundles, in order, and `q` carries their due times. */
  predicate Channel(leg: Leg, started: seq<Started>, done: seq<Report>, q: seq<Pending>) {
    && |started| == |done| + |q|
    && (forall i :: 0 <= i < |done| ==> done[i].bundle == started[i].bundle)
    && (forall i :: 0 <= i < |q| ==>
          q[i] == Pending(started[|done| + i].bundle, DueTime(leg, started[|done| + i])))
  }

  predicate Channels(s: Link) {
    && Channel(Arriving, s.started, s.arrived, s.arrivals)
    && Channel(Reporting(s.reliable), s.started, s.acked, s.transmitted)
  }

  /** Each timer is pending exactly when it has something to wait for, and is set for that. */
  predicate TimersSet(s: Link) {
    && s.inflightTimer == PendingTime(s.pending)
    && s.arrivalTimer == FrontTime(s.arrivals)
    && s.transmittedTimer == FrontTime(s.transmitted)
  }

  predicate Inv(s: Link) {
    && Sending(s)
    && Channels(s)
    && TimersSet(s)
    && (s.isOpen ==> s.contact)
  }

  predicate Initial(s: Link) {
    && !s.isOpen && !s.contact && s.queue == [] && s.pending.None? && s.arrivals == [] && s.transmitted == []
    && s.inflightTimer.None? && s.arrivalTimer.None? && s.transmittedTimer.None?
    && s.enqueued == [] && s.started == [] && s.inFlight == [] && s.arrived == [] && s.acked == []
  }

  lemma LoadSending(s: Link, delay: real, latency: real)
    requires Sending(s) && s.queue != [] && s.pending.None?
    ensures Sending(Load(s, delay, latency))
  {
  }

  lemma LoadChannels(s: Link, delay: real, latency: real)
    requires Channels(s) && s.queue != []
    ensures Channels(Load(s, delay, latency))
  {
  }

  /** Each timer is off or set for the front of its queue: what holds inside a handler. */
  predicate TimersRight(s: Link) {
    && (s.inflightTimer.None? || s.inflightTimer == PendingTime(s.pending))
    && (s.arrivalTimer.None? || s.arrivalTimer == FrontTime(s.arrivals))
    && (s.transmittedTimer.None? || s.transmittedTimer == FrontTime(s.transmitted))
  }

  lemma RescheduleSets(s: Link)
    requires TimersRight(s)
    ensures TimersSet(Reschedule(s))
    ensures TimersSet(s) ==> Reschedule(s) == s
  {
  }

  lemma LoadTimers(s: Link, delay: real, latency: real)
    requires TimersRight(s) && s.queue != [] && s.pending.None?
    ensures TimersRight(Load(s, delay, latency))
  {
  }

  lemma StartKeeps(s: Link, delay: real, latency: real)
    requires Sending(s) && s.queue != [] && s.pending.None? && Channels(s)
    requires TimersRight(s) && (s.isOpen ==> s.contact)
    ensures Inv(StartNext(s, delay, latency))
  {
    LoadSending(s, delay, latency);
    LoadChannels(s, delay, latency);
    LoadTimers(s, delay, latency);
    RescheduleSets(Load(s, delay, latency));
  }

  lemma PutInFlightKeeps(s: Link)
    requires Sending(s) && s.pending.Some?
    ensures Sending(PutInFlight(s)) && PutInFlight(s).queue == s.queue[1..]
  {
    assert s.inFlight + s.queue == s.inFlight + [s.queue[0]] + s.queue[1..];
  }

  lemma HandleInflightKeeps(s: Link, d: real, l: real)
    requires Sending(s) && Channels(s) && TimersRight(s) && s.pending.Some?
    requires s.inflightTimer.None? && (s.isOpen ==> s.contact)
    ensures Inv(HandleInflight(s, d, l))
  {
    PutInFlightKeeps(s);
    var u := PutInFlight(s);
    if s.pending.value.time > s.now {
      RescheduleSets(s);
    } else if u.queue == [] {
      RescheduleSets(u);
    } else {
      StartKeeps(u, d, l);
      RescheduleSets(StartNext(u, d, l));
    }
  }

  lemma DrainChannel(leg: Leg, started: seq<Started>, done: seq<Report>, q: seq<Pending>, n: nat, now: real)
    requires Channel(leg, started, done, q) && n <= |q|
    ensures Channel(leg, started, done + Reports(q, n, now), q[n..])
  {
  }

  lemma DrainArrivalsKeeps(s: Link)
    requires Sending(s) && Channels(s) && (s.isOpen ==> s.contact)
    requires s.inflightTimer == PendingTime(s.pending)
    requires s.arrivalTimer.None? && s.transmittedTimer == FrontTime(s.transmitted)
    ensures Inv(HandleArrivals(s))
  {
    DrainChannel(Arriving, s.started, s.arrived, s.arrivals, Due(s.arrivals, s.now), s.now);
  }

  lemma DrainTransmittedKeeps(s: Link)
    requires Sending(s) && Channels(s) && (s.isOpen ==> s.contact)
    requires s.inflightTimer == PendingTime(s.pending)
    requires s.transmittedTimer.None? && s.arrivalTimer == FrontTime(s.arrivals)
    ensures Inv(HandleTransmitted(s))
  {
    DrainChannel(Reporting(s.reliable), s.started, s.acked, s.transmitted, Due(s.transmitted, s.now), s.now);
  }

  lemma QueueKeeps(s: Link, b: nat, d: real, l: real)
    requires Inv(s) && b !in s.queue
    ensures Inv(QueueBundle(s, b, d, l))
  {
    var s' := s.(queue := s.queue + [b], enqueued := s.enqueued + [b]);
    assert s.inFlight + s.queue + [b] == s.inFlight + (s.queue + [b]);
    assert Sending(s');
    if s.isOpen && s.pending.None? { StartKeeps(s', d, l); }
  }

  lemma OpenKeeps(s: Link, up: bool, d: real, l: real)
    requires Inv(s) && (up && s.queue != [] ==> s.pending.None?)
    ensures Inv(Open(s, up, d, l))
  {
    if up && s.queue != [] { StartKeeps(s.(contact := true), d, l); }
  }

  /** Between handlers everything the link promises itself holds again. */
  lemma StepKeeps(s: Link, t: real, e: Event)
    requires Inv(s) && Enabled(s, t, e) && AssertionsHold(s, e)
    ensures Inv(Step(s, t, e))
  {
    match e
    case Queue(b, d, l) => QueueKeeps(s.(now := t), b, d, l);
    case OpenContact(up, d, l) => OpenKeeps(s.(now := t), up, d, l);
    case InflightFires(d, l) => HandleInflightKeeps(s.(now := t, inflightTimer := None), d, l);
    case ArrivalFires => DrainArrivalsKeeps(s.(now := t, arrivalTimer := None));
    case TransmittedFires => DrainTransmittedKeeps(s.(now := t, transmittedTimer := None));
    case _ =>
  }

  /**
   The assertions of the source, exactly: a timer's handler never finds its queue empty, and the
   only two ways an assertion fails are a contact opened while a bundle is still being clocked
   out, and a report that falls due while the link has no contact.
   */
  lemma WhenAssertionsHold(s: Link, t: real, e: Event)
    requires Inv(s) && Enabled(s, t, e)
    ensures AssertionsHold(s, e) <==>
      && !(e.OpenContact? && e.up && s.pending.Some?)
      && !(e.TransmittedFires? && !s.contact)
  {
  }
}
