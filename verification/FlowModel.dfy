/**
 The analytic model of data moving over a chain of nodes whose links open and close on a schedule.
 Node 0 starts with all the data; link `i` joins node `i - 1` to node `i`; the last node is to
 receive everything.
 */
module FlowModel {
  import opened Collections

  const MAX_TIME: int := 1800
  const NEVER: real := 9999999999.0

  datatype HopMode = Hop | EndToEnd

  datatype LinkMode = Up | Down

  datatype Event = SimDone(time: int) | LinkEvent(time: int, link: nat, mode: LinkMode)

  datatype Config = Config(numHops: nat, totalSize: real, bw: real, hopMode: HopMode, uptime: int, downtime: int)

  datatype State = State(amount: seq<real>, links: seq<bool>, q: seq<Event>, time: int)

  /** `Completed` carries the elapsed time that is printed; `NoSuchLink` is an index error. */
  datatype Exit = Running | Completed(elapsed: real) | MaxTimeReached | NoSuchLink

  datatype Outcome = Outcome(state: State, exit: Exit)

  datatype Moved = Moved(amount: seq<real>, done: bool)

  /** What the options must satisfy for the script to run at all. */
  predicate Sensible(c: Config) {
    c.numHops >= 1 && c.totalSize >= 0.0 && c.bw > 0.0 && c.uptime >= 0 && c.downtime >= 0
  }

  predicate Shaped(c: Config, amount: seq<real>, links: seq<bool>) {
    c.numHops >= 1 && |amount| == |links| == c.numHops
  }

  function Last(c: Config): nat
    requires c.numHops >= 1
  {
    c.numHops - 1
  }

  function Dest(c: Config, i: nat): nat
    requires c.numHops >= 1
  {
    if c.hopMode.Hop? then i + 1 else Last(c)
  }

  /** Whether node `i` can send: over its next link, or over all the links that remain. */
  predicate CanMove(c: Config, links: seq<bool>, i: nat)
    requires c.numHops >= 1 && |links| == c.numHops && i < Last(c)
  {
    if c.hopMode.Hop? then links[i + 1] else forall j :: i + 1 <= j <= Last(c) ==> links[j]
  }

  predicate Blocked(c: Config, links: seq<bool>)
    requires c.numHops >= 1 && |links| == c.numHops
  {
    forall i :: 0 <= i < Last(c) ==> !CanMove(c, links, i)
  }

  predicate AllOpen(links: seq<bool>) {
    forall j :: 0 < j < |links| ==> links[j]
  }

  function Sum(a: seq<real>): real {
    if a == [] then 0.0 else Sum(a[..|a| - 1]) + a[|a| - 1]
  }

  function Least(a: real, b: real): real {
    if b < a then b else a
  }

  function Shift(amount: seq<real>, i: nat, dest: nat, amt: real): (r: seq<real>)
    requires i < dest < |amount|
    ensures |r| == |amount|
  {
    amount[i := amount[i] - amt][dest := amount[dest] + amt]
  }

  /** The loop of `move_data` from node `i` on, each sender moving at most `cap`. */
  function MoveFrom(c: Config, links: seq<bool>, amount: seq<real>, i: nat, cap: real): (m: Moved)
    requires Shaped(c, amount, links)
    ensures |m.amount| == |amount|
    decreases c.numHops - i
  {
    if i >= Last(c) then Moved(amount, false)
    else if !CanMove(c, links, i) then MoveFrom(c, links, amount, i + 1, cap)
    else
      var a := Shift(amount, i, Dest(c, i), Least(amount[i], cap));
      if Dest(c, i) == Last(c) && a[Last(c)] == c.totalSize then Moved(a, true)
      else MoveFrom(c, links, a, i + 1, cap)
  }

  function CompletionTime(c: Config, s: State): real
    requires Shaped(c, s.amount, s.links) && c.bw > 0.0
  {
    if Blocked(c, s.links) then NEVER else Sum(s.amount[..Last(c)]) / c.bw
  }

  predicate IsEarliest(q: seq<Event>, k: nat) {
    k < |q| && forall j :: 0 <= j < |q| ==> q[k].time <= q[j].time
  }

  /** The event a link event queues when it runs. */
  function Following(c: Config, e: Event): Event
    requires e.LinkEvent?
  {
    match e.mode
    case Up => LinkEvent(e.time + c.uptime, e.link, Down)
    case Down => LinkEvent(e.time + c.downtime, e.link, Up)
  }

  function RunEvent(c: Config, s: State, e: Event): Outcome {
    if e.SimDone? then Outcome(s, MaxTimeReached)
    else if e.link >= |s.links| then Outcome(s, NoSuchLink)
    else Outcome(s.(links := s.links[e.link := e.mode.Up?], q := s.q + [Following(c, e)]), Running)
  }

  /** How much one link carries in an interval. */
  function Room(c: Config, interval: real): real {
    interval * c.bw
  }

  /** `move_data`: the state after it, and whether the script ended in it. */
  function MoveData(c: Config, s: State, interval: real): Outcome
    requires Shaped(c, s.amount, s.links)
  {
    var m := MoveFrom(c, s.links, s.amount, 0, Room(c, interval));
    Outcome(s.(amount := m.amount), if m.done then Completed(s.time as real + interval) else Running)
  }

  predicate LinksExist(q: seq<Event>, links: seq<bool>) {
    forall k :: 0 <= k < |q| && q[k].LinkEvent? ==> 0 < q[k].link < |links|
  }

  /** The last part of a turn: the data that moves until the event, and the event. */
  function MoveOn(c: Config, s: State, e: Event, elapsed: int): Outcome
    requires Shaped(c, s.amount, s.links)
  {
    var s1 := s.(time := e.time);
    var o := if elapsed != 0 && !Blocked(c, s.links) then MoveData(c, s1, elapsed as real) else Outcome(s1, Running);
    if o.exit.Running? then RunEvent(c, o.state, e) else o
  }

  /** One turn of the main loop, popping the event at `k`. */
  function Turn(c: Config, s: State, k: nat): Outcome
    requires Shaped(c, s.amount, s.links) && c.bw > 0.0
    requires IsEarliest(s.q, k)
  {
    var e := s.q[k];
    var s1 := s.(q := RemoveAt(s.q, k));
    var tcomplete := CompletionTime(c, s1);
    var elapsed := e.time - s.time;
    var o := if tcomplete < elapsed as real then MoveData(c, s1, tcomplete) else Outcome(s1, Running);
    if o.exit.Running? then MoveOn(c, o.state, e, elapsed) else o
  }

  // ---------------------------------------------------------------- sums

  lemma {:induction false} SumUpdate(a: seq<real>, i: nat, v: real)
    requires i < |a|
    ensures Sum(a[i := v]) == Sum(a) - a[i] + v
  {
    var n := |a| - 1;
    if i == n {
      assert a[i := v][..n] == a[..n];
    } else {
      assert a[i := v][..n] == a[..n][i := v];
      SumUpdate(a[..n], i, v);
    }
  }

  lemma {:induction false} SumPart(a: seq<real>, i: nat)
    requires i < |a| && forall j :: 0 <= j < |a| ==> a[j] >= 0.0
    ensures 0.0 <= a[i] <= Sum(a)
  {
    var n := |a| - 1;
    if n > 0 {
      SumPart(a[..n], if i < n then i else 0);
    }
  }

  lemma {:induction false} SumOfNothing(a: seq<real>, i: nat)
    requires i <= |a| && forall j :: 0 <= j < i ==> a[j] == 0.0
    ensures Sum(a[..i]) == 0.0
  {
    if i > 0 {
      SumOfNothing(a, i - 1);
      assert a[..i][..i - 1] == a[..i - 1];
    }
  }

  lemma SumSplit(a: seq<real>)
    requires a != []
    ensures Sum(a) == Sum(a[..|a| - 1]) + a[|a| - 1]
  {
  }

  // ---------------------------------------------------------------- conservation

  /** Nothing is negative and nothing is lost; end to end, no data ever rests in between. */
  predicate Conserved(c: Config, amount: seq<real>) {
    && |amount| == c.numHops >= 1
    && (forall i :: 0 <= i < |amount| ==> amount[i] >= 0.0)
    && Sum(amount) == c.totalSize
    && (c.hopMode.EndToEnd? ==> forall i :: 0 < i < c.numHops - 1 ==> amount[i] == 0.0)
  }

  lemma ShiftConserves(c: Config, amount: seq<real>, i: nat, cap: real)
    requires Conserved(c, amount) && i < Last(c) && cap >= 0.0
    ensures Conserved(c, Shift(amount, i, Dest(c, i), Least(amount[i], cap)))
  {
    var amt := Least(amount[i], cap);
    var a := amount[i := amount[i] - amt];
    SumUpdate(amount, i, amount[i] - amt);
    SumUpdate(a, Dest(c, i), a[Dest(c, i)] + amt);
  }

  lemma {:induction false} MoveConserves(c: Config, links: seq<bool>, amount: seq<real>, i: nat, cap: real)
    requires Shaped(c, amount, links) && Conserved(c, amount) && cap >= 0.0
    ensures Conserved(c, MoveFrom(c, links, amount, i, cap).amount)
    decreases c.numHops - i
  {
    if i < Last(c) {
      if CanMove(c, links, i) {
        ShiftConserves(c, amount, i, cap);
        MoveConserves(c, links, Shift(amount, i, Dest(c, i), Least(amount[i], cap)), i + 1, cap);
      } else {
        MoveConserves(c, links, amount, i + 1, cap);
      }
    }
  }

  /** `move_data` ends the script exactly when it brings the last byte. */
  lemma {:induction false} DoneIffDelivered(c: Config, links: seq<bool>, amount: seq<real>, i: nat, cap: real)
    requires Shaped(c, amount, links) && amount[Last(c)] != c.totalSize
    ensures var m := MoveFrom(c, links, amount, i, cap); m.done <==> m.amount[Last(c)] == c.totalSize
    decreases c.numHops - i
  {
    if i < Last(c) {
      if CanMove(c, links, i) {
        var a := Shift(amount, i, Dest(c, i), Least(amount[i], cap));
        if !(Dest(c, i) == Last(c) && a[Last(c)] == c.totalSize) {
          DoneIffDelivered(c, links, a, i + 1, cap);
        }
      } else {
        DoneIffDelivered(c, links, amount, i + 1, cap);
      }
    }
  }

  /** A sender moves no more than `cap` to the end of the chain, over a whole pass. */
  lemma {:induction false} PassMovesAtMost(c: Config, links: seq<bool>, amount: seq<real>, i: nat, cap: real)
    requires Shaped(c, amount, links) && Conserved(c, amount) && cap >= 0.0
    ensures MoveFrom(c, links, amount, i, cap).amount[Last(c)]
            <= amount[Last(c)] + (if c.hopMode.EndToEnd? && i > 0 then 0.0 else cap)
    decreases c.numHops - i
  {
    if i < Last(c) {
      if CanMove(c, links, i) {
        ShiftConserves(c, amount, i, cap);
        PassMovesAtMost(c, links, Shift(amount, i, Dest(c, i), Least(amount[i], cap)), i + 1, cap);
      } else {
        PassMovesAtMost(c, links, amount, i + 1, cap);
      }
    }
  }

  // ---------------------------------------------------------------- what moves

  /** Nothing crosses a closed link; an open one takes what the node before it has by then, or all it carries. */
  function Crossing(open: bool, has: real, cap: real): real {
    if !open then 0.0 else if has < cap then has else cap
  }

  /** `f[j]` is what crosses link `j` in one pass, hop by hop, if nothing has crossed links up to `i` yet. */
  predicate HopFlow(links: seq<bool>, amount: seq<real>, i: nat, cap: real, f: seq<real>) {
    && |f| == |amount| + 1 == |links| + 1 && f[|amount|] == 0.0
    && (forall j :: 0 <= j <= i && j < |f| ==> f[j] == 0.0)
    && (forall j :: i < j < |links| ==> f[j] == Crossing(links[j], amount[j - 1] + f[j - 1], cap))
  }

  /** Each node ends with what it had, and what came, less what went. */
  predicate Flowed(amount: seq<real>, f: seq<real>, after: seq<real>) {
    && |f| == |amount| + 1 && |after| == |amount|
    && forall n :: 0 <= n < |amount| ==> after[n] == amount[n] + f[n] - f[n + 1]
  }

  lemma FlowStep(links: seq<bool>, amount: seq<real>, i: nat, cap: real, amt: real, g: seq<real>)
    requires |links| == |amount| && i + 1 < |amount| && amt == Crossing(links[i + 1], amount[i], cap)
    requires HopFlow(links, Shift(amount, i, i + 1, amt), i + 1, cap, g)
    ensures HopFlow(links, amount, i, cap, g[i + 1 := amt])
  {
    var a, f := Shift(amount, i, i + 1, amt), g[i + 1 := amt];
    forall j | i < j < |links| ensures f[j] == Crossing(links[j], amount[j - 1] + f[j - 1], cap) {
      if j > i + 1 { assert g[j] == Crossing(links[j], a[j - 1] + g[j - 1], cap); }
    }
  }

  lemma FlowedStep(amount: seq<real>, i: nat, amt: real, g: seq<real>, after: seq<real>)
    requires i + 1 < |amount| && Flowed(Shift(amount, i, i + 1, amt), g, after) && g[i] == g[i + 1] == 0.0
    ensures Flowed(amount, g[i + 1 := amt], after)
  {
  }

  lemma {:induction false} HopFlows(c: Config, links: seq<bool>, amount: seq<real>, i: nat, cap: real) returns (f: seq<real>)
    requires Shaped(c, amount, links) && c.hopMode.Hop? && i <= Last(c)
    ensures HopFlow(links, amount, i, cap, f) && Flowed(amount, f, MoveFrom(c, links, amount, i, cap).amount)
    decreases c.numHops - i
  {
    if i == Last(c) {
      f := seq(c.numHops + 1, _ => 0.0);
    } else {
      var amt := Crossing(links[i + 1], amount[i], cap);
      var a := Shift(amount, i, i + 1, amt);
      OneHop(c, links, amount, i, cap);
      var g := HopFlows(c, links, a, i + 1, cap);
      FlowStep(links, amount, i, cap, amt, g);
      FlowedStep(amount, i, amt, g, MoveFrom(c, links, a, i + 1, cap).amount);
      f := g[i + 1 := amt];
    }
  }

  lemma OneHop(c: Config, links: seq<bool>, amount: seq<real>, i: nat, cap: real)
    requires Shaped(c, amount, links) && c.hopMode.Hop? && i < Last(c)
    ensures MoveFrom(c, links, amount, i, cap).amount
            == MoveFrom(c, links, Shift(amount, i, i + 1, Crossing(links[i + 1], amount[i], cap)), i + 1, cap).amount
  {
    if !links[i + 1] { assert Shift(amount, i, i + 1, 0.0) == amount; }
  }

  /** With everything at the end, nobody before it has anything. */
  lemma NobodyElse(c: Config, amount: seq<real>, n: nat)
    requires Conserved(c, amount) && amount[Last(c)] == c.totalSize && n < Last(c)
    ensures amount[n] == 0.0
  {
    FrontPart(amount, n);
    SumSplit(amount);
  }

  lemma {:induction false} EndToEndKeeps(c: Config, links: seq<bool>, amount: seq<real>, i: nat, cap: real, n: nat)
    requires Shaped(c, amount, links) && Conserved(c, amount) && c.hopMode.EndToEnd? && cap >= 0.0 && n < Last(c)
    ensures MoveFrom(c, links, amount, i, cap).amount[n]
            == amount[n] - Crossing(n >= i && forall j :: n < j < |links| ==> links[j], amount[n], cap)
    decreases c.numHops - i
  {
    if i < Last(c) {
      if CanMove(c, links, i) {
        ShiftConserves(c, amount, i, cap);
        var a := Shift(amount, i, Dest(c, i), Least(amount[i], cap));
        if a[Last(c)] == c.totalSize {
          NobodyElse(c, a, n);
        } else {
          EndToEndKeeps(c, links, a, i + 1, cap, n);
        }
      } else {
        EndToEndKeeps(c, links, amount, i + 1, cap, n);
      }
    }
  }

  /** What a pass moves hop by hop, from the links alone: what crosses each of them is given by `f`. */
  lemma WhatMovesByHops(c: Config, links: seq<bool>, amount: seq<real>, cap: real) returns (f: seq<real>)
    requires Shaped(c, amount, links) && c.hopMode.Hop?
    ensures HopFlow(links, amount, 0, cap, f) && Flowed(amount, f, MoveFrom(c, links, amount, 0, cap).amount)
  {
    f := HopFlows(c, links, amount, 0, cap);
  }

  /** And end to end: a sender needs every link ahead of it, and what it passes on is at the end at once. */
  lemma WhatMovesEndToEnd(c: Config, links: seq<bool>, amount: seq<real>, cap: real, n: nat)
    requires Shaped(c, amount, links) && Conserved(c, amount) && c.hopMode.EndToEnd? && cap >= 0.0 && n < Last(c)
    ensures MoveFrom(c, links, amount, 0, cap).amount[n]
            == amount[n] - Crossing(forall j :: n < j < |links| ==> links[j], amount[n], cap)
  {
    EndToEndKeeps(c, links, amount, 0, cap, n);
  }

  /** An interval's pass is one in which every link carries bandwidth times interval. */
  lemma PassOfInterval(c: Config, s: State, interval: real)
    requires Shaped(c, s.amount, s.links)
    ensures MoveData(c, s, interval).state == s.(amount := MoveFrom(c, s.links, s.amount, 0, interval * c.bw).amount)
  {
    assert Room(c, interval) == interval * c.bw;
  }

  lemma {:induction false} SumFlowed(amount: seq<real>, f: seq<real>, after: seq<real>, j: nat)
    requires Flowed(amount, f, after) && j <= |amount|
    ensures Sum(after[..j]) == Sum(amount[..j]) + f[0] - f[j]
  {
    if j > 0 {
      SumFlowed(amount, f, after, j - 1);
      assert after[..j][..j - 1] == after[..j - 1] && amount[..j][..j - 1] == amount[..j - 1];
    }
  }

  /** So a closed link carries nothing: what is before it stays before it, in both hop modes. */
  lemma ClosedLinkCarriesNothing(c: Config, links: seq<bool>, amount: seq<real>, cap: real, j: nat)
    requires Shaped(c, amount, links) && Conserved(c, amount) && cap >= 0.0
    requires 1 <= j < |links| && !links[j]
    ensures Sum(MoveFrom(c, links, amount, 0, cap).amount[..j]) == Sum(amount[..j])
  {
    var after := MoveFrom(c, links, amount, 0, cap).amount;
    if c.hopMode.Hop? {
      var f := WhatMovesByHops(c, links, amount, cap);
      SumFlowed(amount, f, after, j);
    } else {
      forall n | 0 <= n < j ensures after[n] == amount[n] {
        WhatMovesEndToEnd(c, links, amount, cap, n);
      }
      assert after[..j] == amount[..j];
    }
  }

  // ---------------------------------------------------------------- completion

  lemma AllOpenCanMove(c: Config, links: seq<bool>, i: nat)
    requires c.numHops >= 1 && |links| == c.numHops && i < Last(c) && AllOpen(links)
    ensures CanMove(c, links, i) && !Blocked(c, links)
  {
    assert CanMove(c, links, i);
  }

  lemma FrontPart(amount: seq<real>, i: nat)
    requires i + 1 < |amount| && forall j :: 0 <= j < |amount| ==> amount[j] >= 0.0
    ensures 0.0 <= amount[i] <= Sum(amount[..|amount| - 1]) <= Sum(amount)
  {
    SumPart(amount[..|amount| - 1], i);
  }

  /** A move along the chain takes nothing from the end, so the front gets no heavier. */
  lemma ShiftFront(c: Config, amount: seq<real>, i: nat)
    requires Conserved(c, amount) && i < Last(c)
    ensures var a := Shift(amount, i, Dest(c, i), amount[i]);
            Conserved(c, a) && Sum(a[..Last(c)]) <= Sum(amount[..Last(c)])
  {
    FrontPart(amount, i);
    assert Least(amount[i], amount[i]) == amount[i];
    ShiftConserves(c, amount, i, amount[i]);
    SumSplit(amount);
    SumSplit(Shift(amount, i, Dest(c, i), amount[i]));
  }

  /** The last sender empties the front. */
  lemma LastSenderDelivers(c: Config, links: seq<bool>, amount: seq<real>, i: nat, cap: real)
    requires Shaped(c, amount, links) && Conserved(c, amount) && AllOpen(links)
    requires i + 1 == Last(c) && forall j :: 0 <= j < i ==> amount[j] == 0.0
    requires amount[i] <= cap
    ensures var m := MoveFrom(c, links, amount, i, cap); m.done && m.amount[Last(c)] == c.totalSize
  {
    AllOpenCanMove(c, links, i);
    ShiftFront(c, amount, i);
    var a := Shift(amount, i, Dest(c, i), amount[i]);
    SumOfNothing(a, i + 1);
    SumSplit(a);
    assert Least(amount[i], cap) == amount[i];
  }

  /** With every link open and room for all that is not at the end yet, one pass delivers everything. */
  lemma {:induction false} AllOpenDelivers(c: Config, links: seq<bool>, amount: seq<real>, i: nat, cap: real)
    requires Shaped(c, amount, links) && Conserved(c, amount) && AllOpen(links)
    requires i < Last(c) && forall j :: 0 <= j < i ==> amount[j] == 0.0
    requires Sum(amount[..Last(c)]) <= cap
    ensures var m := MoveFrom(c, links, amount, i, cap); m.done && m.amount[Last(c)] == c.totalSize
    decreases c.numHops - i
  {
    FrontPart(amount, i);
    if i + 1 == Last(c) {
      LastSenderDelivers(c, links, amount, i, cap);
    } else {
      AllOpenCanMove(c, links, i);
      ShiftFront(c, amount, i);
      assert Least(amount[i], cap) == amount[i];
      var a := Shift(amount, i, Dest(c, i), amount[i]);
      if !(Dest(c, i) == Last(c) && a[Last(c)] == c.totalSize) {
        AllOpenDelivers(c, links, a, i + 1, cap);
      }
    }
  }

  /** With less room than that, and data still on the way, it does not. */
  lemma ShortPassLeavesData(c: Config, links: seq<bool>, amount: seq<real>, cap: real)
    requires Shaped(c, amount, links) && Conserved(c, amount)
    requires 0.0 <= cap < Sum(amount[..Last(c)])
    ensures !MoveFrom(c, links, amount, 0, cap).done
  {
    SumSplit(amount);
    DoneIffDelivered(c, links, amount, 0, cap);
    PassMovesAtMost(c, links, amount, 0, cap);
  }

  lemma DivideBack(a: real, b: real, x: real)
    requires b > 0.0
    ensures (a / b) * b == a
    ensures x < a / b <==> x * b < a
  {
    assert (a / b) * b == a;
    if x < a / b {
      assert (a / b - x) * b > 0.0;
    } else {
      assert (x - a / b) * b >= 0.0;
    }
  }

  lemma DeliversIn(c: Config, s: State, t: real)
    requires Sensible(c) && c.numHops >= 2 && Shaped(c, s.amount, s.links)
    requires Conserved(c, s.amount) && AllOpen(s.links)
    requires Sum(s.amount[..Last(c)]) <= Room(c, t)
    ensures var o := MoveData(c, s, t);
            o.exit == Completed(s.time as real + t) && o.state.amount[Last(c)] == c.totalSize
  {
    AllOpenDelivers(c, s.links, s.amount, 0, Room(c, t));
  }

  lemma DoesNotDeliverIn(c: Config, s: State, t: real)
    requires Sensible(c) && Shaped(c, s.amount, s.links) && Conserved(c, s.amount)
    requires 0.0 <= t && Room(c, t) < Sum(s.amount[..Last(c)])
    ensures MoveData(c, s, t).exit.Running?
  {
    NonNegative(t, c.bw);
    ShortPassLeavesData(c, s.links, s.amount, Room(c, t));
  }

  /** `move_data(completion_time())` with all links open ends the script with everything delivered. */
  lemma CompletionTimeSuffices(c: Config, s: State)
    requires Sensible(c) && c.numHops >= 2 && Shaped(c, s.amount, s.links)
    requires Conserved(c, s.amount) && AllOpen(s.links)
    ensures var t := CompletionTime(c, s); var o := MoveData(c, s, t);
            o.exit == Completed(s.time as real + t) && o.state.amount[Last(c)] == c.totalSize
  {
    AllOpenCanMove(c, s.links, 0);
    var t := CompletionTime(c, s);
    DivideBack(Sum(s.amount[..Last(c)]), c.bw, t);
    DeliversIn(c, s, t);
  }

  /**
   With all links open until the next event, a turn completes exactly when time passes and the data
   left fits into it. What it prints is right when it finishes strictly before the event; when it
   finishes at the event, the interval is counted twice.
   */
  lemma AllOpenTurn(c: Config, s: State, k: nat)
    requires Sensible(c) && c.numHops >= 2 && Shaped(c, s.amount, s.links)
    requires Conserved(c, s.amount) && AllOpen(s.links) && IsEarliest(s.q, k) && s.time <= s.q[k].time
    ensures var t := Sum(s.amount[..Last(c)]) / c.bw;
            var gap := (s.q[k].time - s.time) as real;
            var exit := Turn(c, s, k).exit;
            && (exit.Completed? <==> gap > 0.0 && t <= gap)
            && (t < gap ==> exit == Completed(s.time as real + t))
            && (t == gap > 0.0 ==> exit == Completed(s.time as real + 2.0 * t))
  {
    var e := s.q[k];
    var s1 := s.(q := RemoveAt(s.q, k));
    var elapsed := e.time - s.time;
    var t := CompletionTime(c, s1);
    AllOpenCanMove(c, s.links, 0);
    FrontPart(s.amount, 0);
    DivideBack(Sum(s.amount[..Last(c)]), c.bw, elapsed as real);
    if t < elapsed as real {
      CompletionTimeSuffices(c, s1);
    } else if elapsed != 0 {
      if elapsed as real < t {
        DoesNotDeliverIn(c, s1.(time := e.time), elapsed as real);
      } else {
        DeliversIn(c, s1.(time := e.time), elapsed as real);
      }
    }
  }

  lemma NonNegative(a: real, b: real)
    requires a >= 0.0 && b > 0.0
    ensures a * b >= 0.0
  {
  }

  /** A chain of one node never completes, whatever its links do: it has no sender. */
  lemma SingleNodeNeverCompletes(c: Config, s: State, k: nat)
    requires Sensible(c) && c.numHops == 1 && Shaped(c, s.amount, s.links)
    requires IsEarliest(s.q, k)
    ensures !Turn(c, s, k).exit.Completed?
  {
  }

  // ---------------------------------------------------------------- the link events

  /** Which link an event belongs to; 0, which is no link, for the end of the simulation. */
  function Key(e: Event): nat {
    if e.SimDone? then 0 else e.link
  }

  function Keys(q: seq<Event>): seq<nat> {
    seq(|q|, i requires 0 <= i < |q| => Key(q[i]))
  }

  /**
   Each intermittent link has exactly one queued event, which will close it if and only if it is
   open; the other links are open; and the end of the simulation is queued once.
   */
  ghost predicate Scheduled(intermittent: bool, links: seq<bool>, q: seq<Event>) {
    && LinksExist(q, links)
    && (forall key: nat :: key < |links| ==> multiset(Keys(q))[key] == if key == 0 || intermittent then 1 else 0)
    && (forall k :: 0 <= k < |q| && q[k].LinkEvent? ==> (q[k].mode.Down? <==> links[q[k].link]))
    && (forall k :: 0 <= k < |q| && q[k].SimDone? ==> q[k].time == MAX_TIME)
    && (!intermittent ==> AllOpen(links))
  }

  lemma KeysSplit(q: seq<Event>, k: nat)
    requires k < |q|
    ensures Keys(q) == Keys(q[..k]) + [Key(q[k])] + Keys(q[k + 1..])
    ensures Keys(RemoveAt(q, k)) == Keys(q[..k]) + Keys(q[k + 1..])
  {
  }

  lemma KeysReplaced(q: seq<Event>, k: nat, e: Event)
    requires k < |q| && Key(e) == Key(q[k])
    ensures multiset(Keys(RemoveAt(q, k) + [e])) == multiset(Keys(q))
  {
    KeysSplit(q, k);
    assert Keys(RemoveAt(q, k) + [e]) == Keys(RemoveAt(q, k)) + [Key(e)];
  }

  lemma KeyIsUnique(q: seq<Event>, k: nat, j: nat)
    requires k < |q| && j < |RemoveAt(q, k)| && multiset(Keys(q))[Key(q[k])] == 1
    ensures Key(RemoveAt(q, k)[j]) != Key(q[k])
  {
    KeysSplit(q, k);
    var rest := Keys(RemoveAt(q, k));
    assert multiset(Keys(q)) == multiset(rest) + multiset{Key(q[k])};
    assert multiset(rest)[Key(q[k])] == 0;
    assert rest[j] in multiset(rest);
  }

  lemma LinkEventKeeps(c: Config, intermittent: bool, links: seq<bool>, q: seq<Event>, k: nat)
    requires Scheduled(intermittent, links, q) && k < |q| && q[k].LinkEvent?
    ensures Scheduled(intermittent, links[q[k].link := q[k].mode.Up?], RemoveAt(q, k) + [Following(c, q[k])])
  {
    var e := q[k];
    assert Keys(q)[k] == e.link;
    assert e.link in multiset(Keys(q));
    KeysReplaced(q, k, Following(c, e));
    forall j | 0 <= j < |RemoveAt(q, k)| ensures Key(RemoveAt(q, k)[j]) != e.link {
      KeyIsUnique(q, k, j);
    }
  }

  // ---------------------------------------------------------------- when links open and close

  /**
   The `n`-th event of a link after `first`: whole periods of uptime and downtime later, and for odd
   `n` half a period more, the link being open for the uptime and closed for the downtime.
   */
  function Nth(c: Config, first: Event, n: nat): (e: Event)
    requires first.LinkEvent?
  {
    var whole := first.time + n / 2 * (c.uptime + c.downtime);
    if n % 2 == 0 then LinkEvent(whole, first.link, first.mode)
    else if first.mode.Up? then LinkEvent(whole + c.uptime, first.link, Down)
    else LinkEvent(whole + c.downtime, first.link, Up)
  }

  /** Every link event queued now is a later one of some link event that was queued. */
  ghost predicate OnSchedule(c: Config, was: seq<Event>, now: seq<Event>) {
    forall k :: 0 <= k < |now| && now[k].LinkEvent? ==> Later(c, was, now[k])
  }

  ghost predicate Later(c: Config, was: seq<Event>, e: Event) {
    exists j, n: nat :: 0 <= j < |was| && was[j].LinkEvent? && e == Nth(c, was[j], n)
  }

  lemma FollowingIsNext(c: Config, first: Event, n: nat)
    requires first.LinkEvent?
    ensures Following(c, Nth(c, first, n)) == Nth(c, first, n + 1)
  {
    if n % 2 == 1 {
      assert (n + 1) / 2 == n / 2 + 1 && (n + 1) % 2 == 0;
      assert (n / 2 + 1) * (c.uptime + c.downtime) == n / 2 * (c.uptime + c.downtime) + (c.uptime + c.downtime);
    }
  }

  lemma FirstOnSchedule(c: Config, q: seq<Event>)
    ensures OnSchedule(c, q, q)
  {
    forall k | 0 <= k < |q| && q[k].LinkEvent? ensures Later(c, q, q[k]) {
      assert q[k] == Nth(c, q[k], 0);
    }
  }

  /** Running a link event keeps to the schedule. */
  lemma StaysOnSchedule(c: Config, was: seq<Event>, q: seq<Event>, k: nat)
    requires OnSchedule(c, was, q) && k < |q| && q[k].LinkEvent?
    ensures OnSchedule(c, was, RemoveAt(q, k) + [Following(c, q[k])])
  {
    assert Later(c, was, q[k]);
    var j, n: nat :| 0 <= j < |was| && was[j].LinkEvent? && q[k] == Nth(c, was[j], n);
    FollowingIsNext(c, was[j], n);
    assert Later(c, was, Following(c, q[k]));
    var r := RemoveAt(q, k) + [Following(c, q[k])];
    forall i | 0 <= i < |r| && r[i].LinkEvent? ensures Later(c, was, r[i]) {
      assert i < |r| - 1 ==> r[i] == q[if i < k then i else i + 1];
    }
  }

  /** The end of the simulation is always queued, so nothing later is ever the earliest event. */
  lemma EarliestByMaxTime(intermittent: bool, links: seq<bool>, q: seq<Event>, k: nat)
    requires Scheduled(intermittent, links, q) && links != [] && IsEarliest(q, k)
    ensures q[k].time <= MAX_TIME
  {
    assert multiset(Keys(q))[0] == 1;
    assert 0 in Keys(q);
    var j :| 0 <= j < |q| && Keys(q)[j] == 0;
    assert q[j].SimDone?;
  }

  // ---------------------------------------------------------------- termination

  function Delay(c: Config, mode: LinkMode): int {
    if mode.Up? then c.uptime else c.downtime
  }

  /** What is left of a link event before its time passes the end. */
  function Weight(c: Config, e: Event): nat {
    if e.SimDone? || e.time > MAX_TIME then 0
    else 2 * (MAX_TIME + 1 - e.time) + (if Delay(c, e.mode) == 0 then 1 else 0)
  }

  function Measure(c: Config, q: seq<Event>): nat {
    if q == [] then 0 else Measure(c, q[..|q| - 1]) + Weight(c, q[|q| - 1])
  }

  lemma {:induction false} MeasureRemoveAt(c: Config, q: seq<Event>, k: nat)
    requires k < |q|
    ensures Measure(c, RemoveAt(q, k)) == Measure(c, q) - Weight(c, q[k])
  {
    var n := |q| - 1;
    if k == n {
      assert RemoveAt(q, k) == q[..n];
    } else {
      MeasureRemoveAt(c, q[..n], k);
      assert RemoveAt(q, k)[..n - 1] == RemoveAt(q[..n], k);
    }
  }

  lemma MeasureDrops(c: Config, q: seq<Event>, k: nat)
    requires k < |q| && q[k].LinkEvent? && q[k].time <= MAX_TIME
    requires c.uptime >= 0 && c.downtime >= 0 && c.uptime + c.downtime >= 1
    ensures Measure(c, RemoveAt(q, k) + [Following(c, q[k])]) < Measure(c, q)
  {
    MeasureRemoveAt(c, q, k);
    var r := RemoveAt(q, k) + [Following(c, q[k])];
    assert r[..|r| - 1] == RemoveAt(q, k);
  }

  // ---------------------------------------------------------------- what every turn keeps

  predicate AllFrom(q: seq<Event>, now: int) {
    forall k :: 0 <= k < |q| ==> now <= q[k].time
  }

  /** Data is still missing at the end of the chain, if there is a chain and any data at all. */
  predicate Missing(c: Config, amount: seq<real>)
    requires |amount| == c.numHops >= 1
  {
    c.numHops >= 2 && c.totalSize > 0.0 ==> amount[Last(c)] < c.totalSize
  }

  ghost predicate Good(c: Config, intermittent: bool, s: State) {
    && Sensible(c) && Shaped(c, s.amount, s.links)
    && Conserved(c, s.amount) && Missing(c, s.amount)
    && Scheduled(intermittent, s.links, s.q) && AllFrom(s.q, s.time)
  }

  lemma PassKeeps(c: Config, links: seq<bool>, amount: seq<real>, cap: real)
    requires Sensible(c) && Shaped(c, amount, links) && Conserved(c, amount) && Missing(c, amount) && cap >= 0.0
    ensures var m := MoveFrom(c, links, amount, 0, cap);
            Conserved(c, m.amount) && (if m.done then m.amount[Last(c)] == c.totalSize else Missing(c, m.amount))
  {
    MoveConserves(c, links, amount, 0, cap);
    var m := MoveFrom(c, links, amount, 0, cap);
    SumPart(m.amount, Last(c));
    DoneMeansDelivered(c, links, amount, 0, cap);
    if amount[Last(c)] != c.totalSize {
      DoneIffDelivered(c, links, amount, 0, cap);
    }
  }

  lemma {:induction false} DoneMeansDelivered(c: Config, links: seq<bool>, amount: seq<real>, i: nat, cap: real)
    requires Shaped(c, amount, links)
    ensures var m := MoveFrom(c, links, amount, i, cap); m.done ==> m.amount[Last(c)] == c.totalSize
    decreases c.numHops - i
  {
    if i < Last(c) {
      if CanMove(c, links, i) {
        DoneMeansDelivered(c, links, Shift(amount, i, Dest(c, i), Least(amount[i], cap)), i + 1, cap);
      } else {
        DoneMeansDelivered(c, links, amount, i + 1, cap);
      }
    }
  }

  lemma MoveDataKeeps(c: Config, s: State, interval: real)
    requires Sensible(c) && Shaped(c, s.amount, s.links) && Conserved(c, s.amount) && Missing(c, s.amount)
    requires interval >= 0.0
    ensures var o := MoveData(c, s, interval);
            && o.state == s.(amount := o.state.amount) && Conserved(c, o.state.amount)
            && ((o.exit.Completed? && o.state.amount[Last(c)] == c.totalSize)
                || (o.exit.Running? && Missing(c, o.state.amount)))
  {
    NonNegative(interval, c.bw);
    PassKeeps(c, s.links, s.amount, Room(c, interval));
  }

  lemma CompletionTimeNonNegative(c: Config, s: State)
    requires Sensible(c) && Shaped(c, s.amount, s.links) && Conserved(c, s.amount)
    ensures CompletionTime(c, s) >= 0.0
  {
    var front := Sum(s.amount[..Last(c)]);
    if c.numHops > 1 {
      SumPart(s.amount[..Last(c)], 0);
    }
    DivideBack(front, c.bw, 0.0);
    NotBelowZero(front, c.bw);
  }

  lemma NotBelowZero(a: real, b: real)
    requires a >= 0.0 && b > 0.0
    ensures a / b >= 0.0
  {
  }

  /** What one turn does to everything but the data, and that it conserves the data. */
  lemma TurnParts(c: Config, intermittent: bool, s: State, k: nat)
    requires Good(c, intermittent, s) && IsEarliest(s.q, k)
    ensures var e := s.q[k]; var o := Turn(c, s, k);
            && Shaped(c, o.state.amount, o.state.links) && Conserved(c, o.state.amount)
            && (o.exit.Completed? ==> o.state.amount[Last(c)] == c.totalSize)
            && (!o.exit.Completed? ==> o.state.time == e.time && Missing(c, o.state.amount)
                                       && o.exit == if e.LinkEvent? then Running else MaxTimeReached)
            && (o.exit.Running? ==> o.state.links == s.links[e.link := e.mode.Up?]
                                    && o.state.q == RemoveAt(s.q, k) + [Following(c, e)])
            && s.time <= o.state.time <= e.time
  {
    var e := s.q[k];
    var s1 := s.(q := RemoveAt(s.q, k));
    var elapsed := e.time - s.time;
    CompletionTimeNonNegative(c, s1);
    MoveDataKeeps(c, s1, CompletionTime(c, s1));
    var first := if CompletionTime(c, s1) < elapsed as real then MoveData(c, s1, CompletionTime(c, s1)) else Outcome(s1, Running);
    if first.exit.Running? {
      MoveDataKeeps(c, first.state.(time := e.time), elapsed as real);
    }
  }

  /** Every turn keeps the invariant until the script ends, and brings the end nearer. */
  lemma TurnKeeps(c: Config, intermittent: bool, s: State, k: nat)
    requires Good(c, intermittent, s) && IsEarliest(s.q, k)
    ensures var o := Turn(c, s, k);
            && (o.exit.Running? ==> Good(c, intermittent, o.state))
            && o.state.time <= MAX_TIME
            && (o.exit.MaxTimeReached? ==> o.state.time == MAX_TIME)
            && (o.exit.Running? && c.uptime + c.downtime >= 1 ==> Measure(c, o.state.q) < Measure(c, s.q))
  {
    TurnParts(c, intermittent, s, k);
    EarliestByMaxTime(intermittent, s.links, s.q, k);
    if Turn(c, s, k).exit.Running? {
      LinkEventKeeps(c, intermittent, s.links, s.q, k);
      if c.uptime + c.downtime >= 1 {
        MeasureDrops(c, s.q, k);
      }
    }
  }

  // ---------------------------------------------------------------- what is printed

  /** Every sender that can move has nothing left. */
  predicate Drained(c: Config, links: seq<bool>, amount: seq<real>, upto: nat)
    requires Shaped(c, amount, links)
  {
    forall j :: 0 <= j < upto && j < Last(c) && CanMove(c, links, j) ==> amount[j] == 0.0
  }

  /** A sender with room for all it has passes everything on, and disturbs none before it. */
  lemma ShiftDrains(c: Config, links: seq<bool>, amount: seq<real>, i: nat)
    requires Shaped(c, amount, links) && i < Last(c) && Drained(c, links, amount, i)
    ensures Drained(c, links, Shift(amount, i, Dest(c, i), amount[i]), i + 1)
  {
  }

  /** After a pass with room for everything in front, every sender that can move is empty. */
  lemma {:induction false} PassDrains(c: Config, links: seq<bool>, amount: seq<real>, i: nat, cap: real)
    requires Shaped(c, amount, links) && Conserved(c, amount) && Drained(c, links, amount, i)
    requires Sum(amount[..Last(c)]) <= cap
    ensures var m := MoveFrom(c, links, amount, i, cap); !m.done ==> Drained(c, links, m.amount, Last(c))
    decreases c.numHops - i
  {
    if i < Last(c) {
      if CanMove(c, links, i) {
        FrontPart(amount, i);
        ShiftFront(c, amount, i);
        ShiftDrains(c, links, amount, i);
        assert Least(amount[i], cap) == amount[i];
        PassDrains(c, links, Shift(amount, i, Dest(c, i), amount[i]), i + 1, cap);
      } else {
        PassDrains(c, links, amount, i + 1, cap);
      }
    }
  }

  /** A pass that could have ended the script and did not has left data missing at the end. */
  lemma {:induction false} NotDoneMissing(c: Config, links: seq<bool>, amount: seq<real>, i: nat, cap: real, k: nat)
    requires Shaped(c, amount, links) && i <= k < Last(c) && CanMove(c, links, k) && Dest(c, k) == Last(c)
    requires !MoveFrom(c, links, amount, i, cap).done
    ensures MoveFrom(c, links, amount, i, cap).amount[Last(c)] != c.totalSize
    decreases c.numHops - i
  {
    var a := if CanMove(c, links, i) then Shift(amount, i, Dest(c, i), Least(amount[i], cap)) else amount;
    if i < k {
      NotDoneMissing(c, links, a, i + 1, cap, k);
    } else if a[Last(c)] != c.totalSize {
      DoneIffDelivered(c, links, a, i + 1, cap);
    }
  }

  /** A pass over drained senders moves nothing, and ends nothing that was not ended before. */
  lemma {:induction false} NothingToMove(c: Config, links: seq<bool>, amount: seq<real>, i: nat, cap: real)
    requires Shaped(c, amount, links) && Drained(c, links, amount, Last(c)) && cap >= 0.0
    requires forall k :: i <= k < Last(c) && CanMove(c, links, k) && Dest(c, k) == Last(c) ==> amount[Last(c)] != c.totalSize
    ensures MoveFrom(c, links, amount, i, cap) == Moved(amount, false)
    decreases c.numHops - i
  {
    if i < Last(c) {
      if CanMove(c, links, i) {
        assert amount[i] == 0.0;
        assert Shift(amount, i, Dest(c, i), 0.0) == amount;
      }
      NothingToMove(c, links, amount, i + 1, cap);
    }
  }

  /** What a pass with room for everything in front has left, a second pass neither moves nor finishes. */
  lemma SecondPassIdle(c: Config, links: seq<bool>, amount: seq<real>, cap: real, more: real)
    requires Shaped(c, amount, links) && Conserved(c, amount) && Sum(amount[..Last(c)]) <= cap && more >= 0.0
    requires !MoveFrom(c, links, amount, 0, cap).done
    ensures var a := MoveFrom(c, links, amount, 0, cap).amount; MoveFrom(c, links, a, 0, more) == Moved(a, false)
  {
    var a := MoveFrom(c, links, amount, 0, cap).amount;
    PassDrains(c, links, amount, 0, cap);
    forall k | 0 <= k < Last(c) && CanMove(c, links, k) && Dest(c, k) == Last(c) ensures a[Last(c)] != c.totalSize {
      NotDoneMissing(c, links, amount, 0, cap, k);
    }
    NothingToMove(c, links, a, 0, more);
  }

  lemma {:induction false} BlockedMovesNothing(c: Config, links: seq<bool>, amount: seq<real>, i: nat, cap: real)
    requires Shaped(c, amount, links) && Blocked(c, links)
    ensures MoveFrom(c, links, amount, i, cap) == Moved(amount, false)
    decreases c.numHops - i
  {
    if i < Last(c) {
      assert !CanMove(c, links, i);
      BlockedMovesNothing(c, links, amount, i + 1, cap);
    }
  }

  /** Before an event that comes no later than the completion time, only a pass of just that length completes. */
  lemma CompletesOnlyInTime(c: Config, s: State, e: Event, elapsed: int)
    requires Sensible(c) && Shaped(c, s.amount, s.links) && Conserved(c, s.amount) && elapsed >= 0
    requires elapsed as real <= CompletionTime(c, s)
    ensures var o := MoveOn(c, s, e, elapsed);
            o.exit.Completed? ==> elapsed as real == CompletionTime(c, s) && o.exit == Completed(e.time as real + elapsed as real)
  {
    if !Blocked(c, s.links) && elapsed as real < CompletionTime(c, s) {
      DivideBack(Sum(s.amount[..Last(c)]), c.bw, elapsed as real);
      DoesNotDeliverIn(c, s.(time := e.time), elapsed as real);
    }
  }

  /** After a pass of the completion time that did not complete, the rest of the turn does not either. */
  lemma RestOfTurnIdle(c: Config, s: State, e: Event, elapsed: int)
    requires Sensible(c) && Shaped(c, s.amount, s.links) && Conserved(c, s.amount) && elapsed >= 0
    requires MoveData(c, s, CompletionTime(c, s)).exit.Running?
    ensures !MoveOn(c, MoveData(c, s, CompletionTime(c, s)).state, e, elapsed).exit.Completed?
  {
    if !Blocked(c, s.links) {
      var t := CompletionTime(c, s);
      DivideBack(Sum(s.amount[..Last(c)]), c.bw, t);
      NonNegative(elapsed as real, c.bw);
      SecondPassIdle(c, s.links, s.amount, Room(c, t), Room(c, elapsed as real));
    }
  }

  /**
   What a completing turn prints, in every good state, whatever links are open and in both hop modes:
   it completes within the time `t` it takes to carry all that is not at the end yet; if that is before
   the event the time printed is the true one, and if it is at the event the interval is counted twice.
   */
  lemma PrintedTime(c: Config, intermittent: bool, s: State, k: nat)
    requires Good(c, intermittent, s) && IsEarliest(s.q, k)
    ensures var t := Sum(s.amount[..Last(c)]) / c.bw;
            var gap := (s.q[k].time - s.time) as real;
            var exit := Turn(c, s, k).exit;
            exit.Completed? ==>
              && 0.0 <= t <= gap
              && exit == if t < gap then Completed(s.time as real + t) else Completed(s.time as real + 2.0 * t)
  {
    var e := s.q[k];
    var s1 := s.(q := RemoveAt(s.q, k));
    CompletionTimeNonNegative(c, s);
    if Blocked(c, s.links) { BlockedMovesNothing(c, s.links, s.amount, 0, Room(c, CompletionTime(c, s))); }
    if CompletionTime(c, s) < (e.time - s.time) as real {
      if MoveData(c, s1, CompletionTime(c, s1)).exit.Running? {
        RestOfTurnIdle(c, s1, e, e.time - s.time);
      }
    } else {
      CompletesOnlyInTime(c, s1, e, e.time - s.time);
    }
  }

  /** With room for everything in front it does not matter how much room there is. */
  lemma {:induction false} RoomyPasses(c: Config, links: seq<bool>, amount: seq<real>, i: nat, cap: real, more: real)
    requires Shaped(c, amount, links) && Conserved(c, amount)
    requires Sum(amount[..Last(c)]) <= cap && Sum(amount[..Last(c)]) <= more
    ensures MoveFrom(c, links, amount, i, cap) == MoveFrom(c, links, amount, i, more)
    decreases c.numHops - i
  {
    if i < Last(c) {
      if CanMove(c, links, i) {
        FrontPart(amount, i);
        ShiftFront(c, amount, i);
        assert Least(amount[i], cap) == amount[i] == Least(amount[i], more);
        RoomyPasses(c, links, Shift(amount, i, Dest(c, i), amount[i]), i + 1, cap, more);
      } else {
        RoomyPasses(c, links, amount, i + 1, cap, more);
      }
    }
  }

  /** A pass without room moves nothing. */
  lemma {:induction false} NoRoom(c: Config, links: seq<bool>, amount: seq<real>, i: nat)
    requires Shaped(c, amount, links) && Conserved(c, amount)
    ensures MoveFrom(c, links, amount, i, 0.0).amount == amount
    decreases c.numHops - i
  {
    if i < Last(c) {
      if CanMove(c, links, i) { assert Shift(amount, i, Dest(c, i), 0.0) == amount; }
      NoRoom(c, links, amount, i + 1);
    }
  }

  /** One pass after another with room for everything is one pass with more room. */
  lemma TwoPassesAreOne(c: Config, links: seq<bool>, amount: seq<real>, cap: real, more: real)
    requires Shaped(c, amount, links) && Conserved(c, amount) && Sum(amount[..Last(c)]) <= cap <= more && more >= 0.0
    requires !MoveFrom(c, links, amount, 0, cap).done
    ensures var m := MoveFrom(c, links, amount, 0, cap);
            MoveFrom(c, links, m.amount, 0, more) == m == MoveFrom(c, links, amount, 0, more)
  {
    RoomyPasses(c, links, amount, 0, cap, more);
    SecondPassIdle(c, links, amount, cap, more);
  }

  lemma RoomGrows(c: Config, front: real, t: real, gap: real)
    requires c.bw > 0.0 && t == front / c.bw && t < gap && 0.0 <= gap
    ensures front == Room(c, t) <= Room(c, gap) && Room(c, gap) >= 0.0
  {
    DivideBack(front, c.bw, gap);
    NonNegative(gap, c.bw);
  }

  /** What moves in a turn that does not complete: just what one pass of the time until its event moves. */
  lemma TurnMoves(c: Config, intermittent: bool, s: State, k: nat)
    requires Good(c, intermittent, s) && IsEarliest(s.q, k) && !Turn(c, s, k).exit.Completed?
    ensures var gap := (s.q[k].time - s.time) as real;
            Turn(c, s, k).state.amount == MoveFrom(c, s.links, s.amount, 0, Room(c, gap)).amount
  {
    var gap, t := (s.q[k].time - s.time) as real, CompletionTime(c, s);
    CompletionTimeNonNegative(c, s);
    if Blocked(c, s.links) {
      BlockedMovesNothing(c, s.links, s.amount, 0, Room(c, gap));
      BlockedMovesNothing(c, s.links, s.amount, 0, Room(c, t));
    } else if t < gap {
      assert s.time < s.q[k].time;
      RoomGrows(c, Sum(s.amount[..Last(c)]), t, gap);
      EarlyPass(c, s, k);
    } else if gap == 0.0 {
      NoRoom(c, s.links, s.amount, 0);
    }
  }

  lemma EarlyPass(c: Config, s: State, k: nat)
    requires Sensible(c) && Shaped(c, s.amount, s.links) && Conserved(c, s.amount)
    requires IsEarliest(s.q, k) && s.time < s.q[k].time && !Turn(c, s, k).exit.Completed?
    requires var gap, t := (s.q[k].time - s.time) as real, CompletionTime(c, s);
             t < gap && Sum(s.amount[..Last(c)]) <= Room(c, t) <= Room(c, gap) && Room(c, gap) >= 0.0
    ensures var gap := (s.q[k].time - s.time) as real;
            Turn(c, s, k).state.amount == MoveFrom(c, s.links, s.amount, 0, Room(c, gap)).amount
  {
    var gap, t := (s.q[k].time - s.time) as real, CompletionTime(c, s);
    var s1 := s.(q := RemoveAt(s.q, k));
    assert CompletionTime(c, s1) == t;
    assert !MoveFrom(c, s.links, s.amount, 0, Room(c, t)).done by {
      assert MoveData(c, s1, t).exit.Running?;
    }
    TwoPassesAreOne(c, s.links, s.amount, Room(c, t), Room(c, gap));
  }

  /** When no time passes no data moves: the event is all that happens. */
  lemma DueNow(c: Config, intermittent: bool, s: State, k: nat)
    requires Good(c, intermittent, s) && IsEarliest(s.q, k) && s.q[k].LinkEvent? && s.q[k].time == s.time
    ensures var e := s.q[k];
            Turn(c, s, k) == Outcome(s.(links := s.links[e.link := e.mode.Up?], q := RemoveAt(s.q, k) + [Following(c, e)]), Running)
  {
    CompletionTimeNonNegative(c, s.(q := RemoveAt(s.q, k)));
  }

  /** The event queued again is still the earliest when its period is zero. */
  lemma StillEarliest(q: seq<Event>, k: nat, e: Event)
    requires IsEarliest(q, k) && e.time == q[k].time
    ensures IsEarliest(RemoveAt(q, k) + [e], |q| - 1) && RemoveAt(RemoveAt(q, k) + [e], |q| - 1) == RemoveAt(q, k)
  {
  }

  /** With both periods zero there is no end: two turns of an event that is due now change nothing. */
  lemma ZeroPeriodsSpin(c: Config, intermittent: bool, s: State, k: nat)
    requires Good(c, intermittent, s) && c.uptime == 0 && c.downtime == 0
    requires IsEarliest(s.q, k) && s.q[k].LinkEvent? && s.q[k].time == s.time
    ensures var o := Turn(c, s, k);
            && o.exit.Running? && Good(c, intermittent, o.state)
            && IsEarliest(o.state.q, |s.q| - 1)
            && Turn(c, o.state, |s.q| - 1) == Outcome(s.(q := RemoveAt(s.q, k) + [s.q[k]]), Running)
  {
    var e := s.q[k];
    TurnKeeps(c, intermittent, s, k);
    DueNow(c, intermittent, s, k);
    StillEarliest(s.q, k, Following(c, e));
    var t := Turn(c, s, k).state;
    DueNow(c, intermittent, t, |s.q| - 1);
    assert t.links[e.link := !e.mode.Up?] == s.links;
  }

  /** What a turn leaves queued. */
  lemma QueueAfter(c: Config, s: State, k: nat)
    requires Shaped(c, s.amount, s.links) && c.bw > 0.0 && IsEarliest(s.q, k)
    ensures var o := Turn(c, s, k);
            o.state.q == if o.exit.Running? then RemoveAt(s.q, k) + [Following(c, s.q[k])] else RemoveAt(s.q, k)
    ensures Turn(c, s, k).exit.Running? ==> s.q[k].LinkEvent?
  {
  }

  lemma KeepsToSchedule(c: Config, was: seq<Event>, s: State, k: nat)
    requires Shaped(c, s.amount, s.links) && c.bw > 0.0 && IsEarliest(s.q, k) && OnSchedule(c, was, s.q)
    ensures OnSchedule(c, was, Turn(c, s, k).state.q)
  {
    QueueAfter(c, s, k);
    if Turn(c, s, k).exit.Running? {
      StaysOnSchedule(c, was, s.q, k);
    } else {
      forall i | 0 <= i < |s.q| - 1 ensures RemoveAt(s.q, k)[i] == s.q[if i < k then i else i + 1] { }
    }
  }

  // ---------------------------------------------------------------- the initial schedules

  datatype Conn = AlwaysOn | All2 | Sequential | Offset2 | Shift10 | Undefined

  /** The schedules that raise an error. */
  predicate Accepted(conn: Conn, numHops: nat) {
    !conn.Undefined? && (conn.Shift10? ==> numHops * 10 <= 60)
  }

  /** The first event of link `i`. */
  function FirstEvent(conn: Conn, uptime: int, i: nat): Event {
    match conn
    case Sequential => if i == 1 then LinkEvent(uptime, 1, Down) else LinkEvent((i - 1) * 60, i, Up)
    case Offset2 => if i % 2 == 0 then LinkEvent(120, i, Up) else LinkEvent(uptime, i, Down)
    case Shift10 => if i == 1 then LinkEvent(uptime, 1, Down) else LinkEvent(10 * (i - 1), i, Up)
    case _ => LinkEvent(uptime, i, Down)
  }

  /** The queue once the first events of links 1 to `n - 1` are in it. */
  predicate FirstEvents(conn: Conn, uptime: int, q: seq<Event>, n: nat) {
    && |q| == n >= 1 && q[0] == SimDone(MAX_TIME)
    && forall i :: 1 <= i < n ==> q[i] == FirstEvent(conn, uptime, i)
  }

  /** The links after the first events of links 1 to `n - 1` have been queued. */
  predicate FirstLinks(conn: Conn, uptime: int, links: seq<bool>, n: nat) {
    forall i :: 0 <= i < |links| ==> (links[i] <==> i == 0 || i >= n || FirstEvent(conn, uptime, i).mode.Down?)
  }

  /** How many events a schedule has at the start. Two of them name link 1 even if there is none. */
  function FirstCount(conn: Conn, numHops: nat): nat {
    if (conn.Sequential? || conn.Shift10?) && numHops < 2 then 2 else numHops
  }

  lemma {:induction false} CountUpTo(s: seq<nat>, key: nat)
    requires forall i :: 0 <= i < |s| ==> s[i] == i
    ensures multiset(s)[key] == if key < |s| then 1 else 0
  {
    if s != [] {
      var n := |s| - 1;
      assert s == s[..n] + [n];
      CountUpTo(s[..n], key);
    }
  }

  /** Every schedule starts with one event for each link, agreeing with the link's state. */
  lemma FirstEventsScheduled(conn: Conn, uptime: int, links: seq<bool>, q: seq<Event>)
    requires !conn.AlwaysOn? && links != []
    requires FirstEvents(conn, uptime, q, |links|) && FirstLinks(conn, uptime, links, |links|)
    ensures Scheduled(true, links, q)
    // a link is open at first and closes after its uptime, or is closed and opens on its turn
    ensures forall i :: 1 <= i < |links| ==>
              if links[i] then q[i] == LinkEvent(uptime, i, Down)
              else q[i] == LinkEvent(match conn case Sequential => 60 * (i - 1) case Shift10 => 10 * (i - 1) case _ => 120, i, Up)
    ensures forall i :: 1 <= i < |links| ==>
              (links[i] <==> conn.All2? || conn.Undefined? || (if conn.Offset2? then i % 2 == 1 else i == 1))
  {
    forall key: nat | key < |links| ensures multiset(Keys(q))[key] == 1 {
      CountUpTo(Keys(q), key);
    }
  }

  lemma NoEventsScheduled(links: seq<bool>)
    requires links != [] && AllOpen(links)
    ensures Scheduled(false, links, [SimDone(MAX_TIME)])
  {
    forall key: nat | key < |links| ensures multiset(Keys([SimDone(MAX_TIME)]))[key] == if key == 0 then 1 else 0 {
      CountUpTo(Keys([SimDone(MAX_TIME)]), key);
    }
  }

  // ---------------------------------------------------------------- the script

  datatype Started = Refused | Ready(flow: Flow)

  class Flow {
    const c: Config
    const intermittent: bool
    var amount: seq<real>
    var links: seq<bool>
    var q: seq<Event>
    var time: int

    function Abs(): State
      reads this
    {
      State(amount, links, q, time)
    }

    ghost predicate Valid()
      reads this
    {
      Good(c, intermittent, Abs())
    }

    /** Every link open, all the data at node 0, and the end of the simulation queued. */
    constructor (c: Config, intermittent: bool)
      requires Sensible(c)
      ensures this.c == c && this.intermittent == intermittent && time == 0 && q == [SimDone(MAX_TIME)]
      ensures |amount| == |links| == c.numHops && (forall i :: 0 <= i < c.numHops ==> links[i])
      ensures forall i :: 0 <= i < c.numHops ==> amount[i] == if i == 0 then c.totalSize else 0.0
    {
      this.c, this.intermittent := c, intermittent;
      amount := seq(c.numHops, i requires 0 <= i < c.numHops => if i == 0 then c.totalSize else 0.0);
      links := seq(c.numHops, _ => true);
      q := [SimDone(MAX_TIME)];
      time := 0;
    }

    method QueueEvent(e: Event)
      modifies `q
      ensures q == old(q) + [e]
    {
      q := q + [e];
    }

    /** The loops that set up a schedule, one link after another. */
    method Schedule(conn: Conn)
      requires Accepted(conn, c.numHops) && !conn.AlwaysOn? && |links| == c.numHops >= 1
      requires q == [SimDone(MAX_TIME)] && forall i :: 0 <= i < |links| ==> links[i]
      modifies `q, `links
      ensures |links| == c.numHops
      ensures FirstEvents(conn, c.uptime, q, FirstCount(conn, c.numHops))
      ensures FirstLinks(conn, c.uptime, links, c.numHops)
    {
      var i := 1;
      if conn.Sequential? || conn.Shift10? {
        QueueEvent(LinkEvent(c.uptime, 1, Down));
        i := 2;
      }
      while i < c.numHops
        invariant 1 <= i <= FirstCount(conn, c.numHops) && |links| == c.numHops
        invariant conn.Sequential? || conn.Shift10? ==> i >= 2
        invariant FirstEvents(conn, c.uptime, q, i) && FirstLinks(conn, c.uptime, links, i)
      {
        if conn.All2? {
          QueueEvent(LinkEvent(c.uptime, i, Down));
        } else if conn.Sequential? {
          links := links[i := false];
          QueueEvent(LinkEvent((i - 1) * 60, i, Up));
        } else if conn.Shift10? {
          links := links[i := false];
          QueueEvent(LinkEvent(10 * (i - 1), i, Up));
        } else if i % 2 == 0 {
          links := links[i := false];
          QueueEvent(LinkEvent(120, i, Up));
        } else {
          QueueEvent(LinkEvent(c.uptime, i, Down));
        }
        i := i + 1;
      }
    }

    /** `move_data`. */
    method Move(interval: real) returns (exit: Exit)
      requires Shaped(c, amount, links)
      modifies `amount
      ensures Outcome(Abs(), exit) == MoveData(c, old(Abs()), interval)
    {
      var i := 0;
      while i < Last(c)
        invariant i <= Last(c) && Shaped(c, amount, links)
        invariant MoveFrom(c, links, amount, i, Room(c, interval)) == MoveFrom(c, links, old(amount), 0, Room(c, interval))
      {
        if CanMove(c, links, i) {
          var dest := if c.hopMode.Hop? then i + 1 else Last(c);
          var amt := Least(amount[i], Room(c, interval));
          amount := amount[i := amount[i] - amt];
          amount := amount[dest := amount[dest] + amt];
          if dest == Last(c) && amount[dest] == c.totalSize {
            return Completed(time as real + interval);
          }
        }
        i := i + 1;
      }
      exit := Running;
    }

    method RunLinkEvent(e: Event) returns (exit: Exit)
      requires e.LinkEvent?
      modifies `links, `q
      ensures Outcome(Abs(), exit) == RunEvent(c, old(Abs()), e)
    {
      if e.link >= |links| { return NoSuchLink; }
      exit := Running;
      if e.mode.Up? {
        links := links[e.link := true];
        QueueEvent(LinkEvent(e.time + c.uptime, e.link, Down));
      } else {
        links := links[e.link := false];
        QueueEvent(LinkEvent(e.time + c.downtime, e.link, Up));
      }
    }

    /** The body of the main loop. Of several earliest events the heap may give any. */
    method OneTurn() returns (exit: Exit, ghost k: nat)
      requires Shaped(c, amount, links) && c.bw > 0.0 && q != []
      modifies this
      ensures IsEarliest(old(q), k) && Outcome(Abs(), exit) == Turn(c, old(Abs()), k)
    {
      HasEarliest(q);
      var j: nat :| IsEarliest(q, j);
      k := j;
      var e := q[j];
      q := RemoveAt(q, j);
      var tcomplete := CompletionTime(c, Abs());
      var elapsed := e.time - time;
      exit := Running;
      if tcomplete < elapsed as real {
        exit := Move(tcomplete);
        if !exit.Running? { return; }
      }
      time := e.time;
      if elapsed != 0 && !Blocked(c, links) {
        exit := Move(elapsed as real);
        if !exit.Running? { return; }
      }
      if e.SimDone? {
        exit := MaxTimeReached;
      } else {
        exit := RunLinkEvent(e);
      }
    }

    /**
     The main loop: it ends, by simulated time 1800 and with all data accounted for. It ends with
     everything delivered, or at time 1800 with data still missing, or, on a chain of one node whose
     schedule names a link it does not have, with an index error when that link is due.
     */
    method Run() returns (exit: Exit)
      requires (Valid() && c.uptime + c.downtime >= 1) || Strayed(c, Abs())
      modifies this
      ensures !exit.Running? && old(time) <= time <= MAX_TIME
      ensures |amount| == c.numHops && Conserved(c, amount)
      ensures exit.Completed? ==> amount[Last(c)] == c.totalSize
      ensures exit.MaxTimeReached? ==> time == MAX_TIME && Missing(c, amount)
      ensures exit.NoSuchLink? ==> Strayed(c, old(Abs())) && time == c.uptime
      ensures Strayed(c, old(Abs())) ==> if c.uptime < MAX_TIME then exit.NoSuchLink? else !exit.Completed?
      // whatever is queued has kept to the periods of its link
      ensures OnSchedule(c, old(q), q)
    {
      exit := Running;
      FirstOnSchedule(c, q);
      while exit.Running?
        invariant exit.Running? ==> if Strayed(c, old(Abs())) then Abs() == old(Abs()) else Valid() && c.uptime + c.downtime >= 1
        invariant OnSchedule(c, old(q), q)
        invariant old(time) <= time && (exit.Running? || time <= MAX_TIME)
        invariant |amount| == c.numHops && Conserved(c, amount)
        invariant exit.Completed? ==> amount[Last(c)] == c.totalSize && !Strayed(c, old(Abs()))
        invariant exit.MaxTimeReached? ==> time == MAX_TIME && Missing(c, amount)
        invariant exit.NoSuchLink? ==> Strayed(c, old(Abs())) && time == c.uptime
        invariant exit.MaxTimeReached? && Strayed(c, old(Abs())) ==> c.uptime >= MAX_TIME
        decreases exit.Running?, Measure(c, q)
      {
        ghost var s := Abs();
        if !Strayed(c, s) { NeverEmpty(intermittent, links, q); }
        ghost var k;
        exit, k := OneTurn();
        if Strayed(c, s) {
          StrayedTurn(c, s, k);
        } else {
          TurnParts(c, intermittent, s, k);
          TurnKeeps(c, intermittent, s, k);
        }
        KeepsToSchedule(c, old(q), s, k);
      }
    }
  }

  /** One node, and an event for a link 1 that is not there. */
  ghost predicate Strayed(c: Config, s: State) {
    && Sensible(c) && c.numHops == 1 && Shaped(c, s.amount, s.links) && Conserved(c, s.amount)
    && s.time == 0 && s.q == [SimDone(MAX_TIME), LinkEvent(c.uptime, 1, Down)]
  }

  /** The first event ends such a run, in one way or the other. */
  lemma StrayedTurn(c: Config, s: State, k: nat)
    requires Strayed(c, s) && IsEarliest(s.q, k)
    ensures var o := Turn(c, s, k);
            && o.state.amount == s.amount && o.state.time == s.q[k].time
            && (if k == 0 then o.exit.MaxTimeReached? && c.uptime >= MAX_TIME
                else o.exit.NoSuchLink? && c.uptime <= MAX_TIME)
  {
    assert s.q[0].time == MAX_TIME && s.q[1].time == c.uptime;
  }

  /** The script up to its main loop. */
  method Start(c: Config, conn: Conn) returns (r: Started)
    requires Sensible(c)
    ensures r.Ready? <==> Accepted(conn, c.numHops)
    ensures r.Ready? ==> fresh(r.flow) && r.flow.c == c && r.flow.time == 0 && |r.flow.amount| == c.numHops
    ensures r.Ready? ==> forall i :: 0 <= i < c.numHops ==> r.flow.amount[i] == if i == 0 then c.totalSize else 0.0
    ensures r.Ready? ==> r.flow.intermittent == !conn.AlwaysOn?
    ensures r.Ready? ==> if FirstCount(conn, c.numHops) == c.numHops then r.flow.Valid() else Strayed(c, r.flow.Abs())
    ensures r.Ready? && conn.AlwaysOn? ==> r.flow.q == [SimDone(MAX_TIME)] && AllOpen(r.flow.links)
    ensures r.Ready? && !conn.AlwaysOn? ==>
              && FirstEvents(conn, c.uptime, r.flow.q, FirstCount(conn, c.numHops))
              && FirstLinks(conn, c.uptime, r.flow.links, c.numHops)
  {
    if conn.Undefined? || (conn.Shift10? && c.numHops * 10 > 60) {
      return Refused;
    }
    var flow := new Flow(c, !conn.AlwaysOn?);
    AllAtFirst(flow.amount, c.totalSize);
    StartGood(c, conn, flow.amount);
    if !conn.AlwaysOn? {
      flow.Schedule(conn);
    }
    StartScheduled(c, conn, flow.links, flow.q);
    r := Ready(flow);
  }

  lemma StartGood(c: Config, conn: Conn, amount: seq<real>)
    requires Sensible(c) && |amount| == c.numHops && Sum(amount) == c.totalSize
    requires forall i :: 0 <= i < c.numHops ==> amount[i] == if i == 0 then c.totalSize else 0.0
    ensures Conserved(c, amount) && Missing(c, amount)
  {
  }

  lemma StartScheduled(c: Config, conn: Conn, links: seq<bool>, q: seq<Event>)
    requires Sensible(c) && Accepted(conn, c.numHops) && |links| == c.numHops
    requires conn.AlwaysOn? ==> q == [SimDone(MAX_TIME)] && AllOpen(links)
    requires !conn.AlwaysOn? ==>
               FirstEvents(conn, c.uptime, q, FirstCount(conn, c.numHops)) && FirstLinks(conn, c.uptime, links, c.numHops)
    ensures AllFrom(q, 0)
    ensures if FirstCount(conn, c.numHops) == c.numHops then Scheduled(!conn.AlwaysOn?, links, q)
            else q == [SimDone(MAX_TIME), LinkEvent(c.uptime, 1, Down)]
  {
    if conn.AlwaysOn? {
      NoEventsScheduled(links);
    } else if FirstCount(conn, c.numHops) == c.numHops {
      FirstEventsScheduled(conn, c.uptime, links, q);
    }
  }

  lemma {:induction false} AllAtFirst(a: seq<real>, total: real)
    requires a != [] && forall i :: 0 <= i < |a| ==> a[i] == if i == 0 then total else 0.0
    ensures Sum(a) == total
  {
    if |a| > 1 {
      AllAtFirst(a[..|a| - 1], total);
    } else {
      assert Sum(a[..0]) == 0.0;
    }
  }

  lemma NeverEmpty(intermittent: bool, links: seq<bool>, q: seq<Event>)
    requires Scheduled(intermittent, links, q) && links != []
    ensures q != []
  {
    assert multiset(Keys(q))[0] == 1;
    assert 0 in Keys(q);
  }

  lemma {:induction false} HasEarliest(q: seq<Event>)
    requires q != []
    ensures exists k: nat :: IsEarliest(q, k)
  {
    var n := |q| - 1;
    if n == 0 {
      assert IsEarliest(q, 0);
    } else {
      HasEarliest(q[..n]);
      var k: nat :| IsEarliest(q[..n], k);
      assert IsEarliest(q, if q[n].time < q[k].time then n else k);
    }
  }
}
