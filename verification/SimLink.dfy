/** The simulated link of sim/SimConvergenceLayer.cc, changed in place by its timers' handlers. */
module SimLink {
  import opened Collections
  import opened SimLinkModel

  class SimLink {
    const reliable: bool
    var now: real
    var contact: bool
    var isOpen: bool
    var queue: seq<nat>
    var pendingInflight: Option<Pending>
    var arrivalEvents: seq<Pending>
    var transmittedEvents: seq<Pending>
    var inflightTimer: Option<real>
    var arrivalTimer: Option<real>
    var transmittedTimer: Option<real>
    var inFlight: seq<nat>       // the link's in-flight list
    var arrived: seq<Report>     // events posted to the peer node
    var acked: seq<Report>       // events posted to the sending node
    ghost var enqueued: seq<nat>
    ghost var started: seq<Started>

    ghost function Abs(): (s: Link)
      reads this
    {
      Link(now, reliable, contact, isOpen, queue, pendingInflight, arrivalEvents, transmittedEvents,
           inflightTimer, arrivalTimer, transmittedTimer, enqueued, started, inFlight, arrived, acked)
    }

    /** `pending_inflight_` starts out null; the source's constructor leaves it unset. */
    constructor (reliable: bool)
      ensures Initial(Abs()) && this.reliable == reliable
    {
      this.reliable := reliable;
      now, contact, isOpen, queue := 0.0, false, false, [];
      pendingInflight, arrivalEvents, transmittedEvents := None, [], [];
      inflightTimer, arrivalTimer, transmittedTimer := None, None, None;
      inFlight, arrived, acked, enqueued, started := [], [], [], [], [];
    }

    method RescheduleTimers()
      modifies this`inflightTimer, this`arrivalTimer, this`transmittedTimer
      ensures Abs() == Reschedule(old(Abs()))
    {
      if inflightTimer.None? && pendingInflight.Some? {
        inflightTimer := Some(pendingInflight.value.time);
      }
      if arrivalTimer.None? && arrivalEvents != [] {
        arrivalTimer := Some(arrivalEvents[0].time);
      }
      if transmittedTimer.None? && transmittedEvents != [] {
        transmittedTimer := Some(transmittedEvents[0].time);
      }
    }

    /** The slot and the two queues are filled together. */
    method LoadNext(bwDelay: real, latency: real)
      requires queue != []
      modifies this`pendingInflight, this`arrivalEvents, this`transmittedEvents, this`started
      ensures Abs() == Load(old(Abs()), bwDelay, latency)
    {
      var bundle := queue[0];
      var inflightTime := now + bwDelay;
      var arrivalTime := inflightTime + latency;
      var transmittedTime := if reliable then inflightTime + latency * 2.0 else inflightTime;
      pendingInflight := Some(Pending(bundle, inflightTime));
      arrivalEvents := arrivalEvents + [Pending(bundle, arrivalTime)];
      transmittedEvents := transmittedEvents + [Pending(bundle, transmittedTime)];
      started := started + [Started(bundle, inflightTime, latency)];
    }

    method StartNextBundle(bwDelay: real, latency: real)
      requires queue != [] && pendingInflight.None?
      modifies this
      ensures Abs() == StartNext(old(Abs()), bwDelay, latency)
    {
      LoadNext(bwDelay, latency);
      RescheduleTimers();
    }

    method DelFromQueue(bundle: nat)
      modifies this`queue
      ensures queue == Removed(old(queue), bundle)
    {
      var i := 0;
      while i < |queue|
        invariant i <= |queue| && queue == old(queue)
        invariant Removed(queue, bundle) == queue[..i] + Removed(queue[i..], bundle)
      {
        if queue[i] == bundle {
          queue := queue[..i] + queue[i + 1..];
          return;
        }
        i := i + 1;
      }
    }

    method ClockOut()
      requires pendingInflight.Some?
      modifies this`inFlight, this`queue, this`pendingInflight
      ensures Abs() == PutInFlight(old(Abs()))
    {
      var bundle := pendingInflight.value.bundle;
      inFlight := inFlight + [bundle];
      DelFromQueue(bundle);
      pendingInflight := None;
    }

    method HandlePendingInflight(bwDelay: real, latency: real)
      requires pendingInflight.Some?
      modifies this
      ensures Abs() == HandleInflight(old(Abs()), bwDelay, latency)
    {
      if pendingInflight.value.time <= now {
        ClockOut();
        if queue != [] {
          StartNextBundle(bwDelay, latency);
        }
      }
      RescheduleTimers();
    }

    method HandleArrivalEvents()
      requires arrivalEvents != []
      modifies this
      ensures Abs() == HandleArrivals(old(Abs()))
    {
      ghost var n := 0;
      while arrivalEvents != []
        invariant n <= |old(arrivalEvents)| && arrivalEvents == old(arrivalEvents)[n..]
        invariant arrived == old(arrived) + Reports(old(arrivalEvents), n, now)
        invariant Abs() == old(Abs()).(arrived := arrived, arrivals := arrivalEvents)
        invariant Due(old(arrivalEvents), now) == n + Due(arrivalEvents, now)
        decreases |arrivalEvents|
      {
        var next := arrivalEvents[0];
        if next.time <= now {
          arrivalEvents := arrivalEvents[1..];
          arrived := arrived + [Report(next.bundle, now)];
          n := n + 1;
        } else {
          break;
        }
      }
      RescheduleTimers();
    }

    method HandleTransmittedEvents()
      requires transmittedEvents != [] && contact
      modifies this
      ensures Abs() == HandleTransmitted(old(Abs()))
    {
      ghost var n := 0;
      while transmittedEvents != []
        invariant n <= |old(transmittedEvents)| && transmittedEvents == old(transmittedEvents)[n..]
        invariant acked == old(acked) + Reports(old(transmittedEvents), n, now)
        invariant Abs() == old(Abs()).(acked := acked, transmitted := transmittedEvents)
        invariant Due(old(transmittedEvents), now) == n + Due(transmittedEvents, now)
        decreases |transmittedEvents|
      {
        var next := transmittedEvents[0];
        if next.time <= now {
          transmittedEvents := transmittedEvents[1..];
          acked := acked + [Report(next.bundle, now)];
          n := n + 1;
        } else {
          break;
        }
      }
      RescheduleTimers();
    }

    /** The router's queueing of a bundle, and the convergence layer's `bundle_queued`. */
    method BundleQueued(bundle: nat, bwDelay: real, latency: real)
      requires bundle !in queue
      modifies this
      ensures Abs() == QueueBundle(old(Abs()), bundle, bwDelay, latency)
    {
      queue := queue + [bundle];
      enqueued := enqueued + [bundle];
      if isOpen && pendingInflight.None? {
        StartNextBundle(bwDelay, latency);
      }
    }

    /** `Link::open` and `open_contact`; `up` is what the connectivity table says. */
    method OpenContact(up: bool, bwDelay: real, latency: real)
      requires up && queue != [] ==> pendingInflight.None?
      modifies this
      ensures Abs() == Open(old(Abs()), up, bwDelay, latency)
    {
      contact := true;
      if up && queue != [] {
        StartNextBundle(bwDelay, latency);
      }
    }

    /** The daemon's handling of the contact-up event: only now is the link open. */
    method ContactUp()
      modifies this`isOpen
      ensures Abs() == old(Abs()).(isOpen := true)
    {
      isOpen := true;
    }

    /** The link is closed and its contact gone; slot, queues and timers stay. */
    method CloseContact()
      modifies this`isOpen, this`contact
      ensures Abs() == old(Abs()).(isOpen := false, contact := false)
    {
      isOpen, contact := false, false;
    }

    // A timer's `timeout`: the timer is no longer pending when its handler runs.

    method InflightTimeout(t: real, bwDelay: real, latency: real)
      requires inflightTimer.Some? && pendingInflight.Some?
      modifies this
      ensures Abs() == HandleInflight(old(Abs()).(now := t, inflightTimer := None), bwDelay, latency)
    {
      now, inflightTimer := t, None;
      assert Abs() == old(Abs()).(now := t, inflightTimer := None);
      HandlePendingInflight(bwDelay, latency);
    }

    method ArrivalTimeout(t: real)
      requires arrivalTimer.Some? && arrivalEvents != []
      modifies this
      ensures Abs() == HandleArrivals(old(Abs()).(now := t, arrivalTimer := None))
    {
      now, arrivalTimer := t, None;
      assert Abs() == old(Abs()).(now := t, arrivalTimer := None);
      HandleArrivalEvents();
    }

    method TransmittedTimeout(t: real)
      requires transmittedTimer.Some? && transmittedEvents != [] && contact
      modifies this
      ensures Abs() == HandleTransmitted(old(Abs()).(now := t, transmittedTimer := None))
    {
      now, transmittedTimer := t, None;
      assert Abs() == old(Abs()).(now := t, transmittedTimer := None);
      HandleTransmittedEvents();
    }

    /** Whatever can happen to the link, in place: each step of the model. */
    method Perform(t: real, e: Event)
      requires Enabled(Abs(), t, e) && AssertionsHold(Abs(), e)
      modifies this
      ensures Abs() == Step(old(Abs()), t, e)
    {
      match e {
        case Queue(b, d, l) =>
          Advance(t);
          BundleQueued(b, d, l);
        case OpenContact(up, d, l) =>
          Advance(t);
          OpenContact(up, d, l);
        case ContactUp =>
          Advance(t);
          ContactUp();
        case CloseContact =>
          Advance(t);
          CloseContact();
        case InflightFires(d, l) => InflightTimeout(t, d, l);
        case ArrivalFires => ArrivalTimeout(t);
        case TransmittedFires => TransmittedTimeout(t);
      }
    }

    method Advance(t: real)
      modifies this`now
      ensures Abs() == old(Abs()).(now := t)
    {
      now := t;
    }
  }
}
