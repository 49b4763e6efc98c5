/**
 Who owns which registration: the daemon's registration table, the sessions that bind
 registrations, and the expiry events between them. Handlers are atomic steps on one state.
 */
module Registrations {
  import opened Collections
  import opened IpcDefs

  /** Regids end here; `next_regid` asserts that it has not got this far. */
  const LAST_REGID: nat := 0xffff_ffff

  /**
   `api` registrations are bound by sessions. The others (administration, ping, logging, Tcl) belong
   to the daemon itself and are active from their construction. `touched` is auxiliary: the
   registration has been bound at some time.
   */
  datatype Registration = Registration(api: bool, active: bool, expired: bool, expiration: nat, touched: bool)

  /**
   `bindings` has an entry for every session ever accepted; `clients` lists those still running;
   `posted` holds the expiry events the daemon has not handled yet, by regid.
   */
  datatype State = State(
    table: map<nat, Registration>,
    bindings: map<nat, seq<nat>>,
    clients: seq<nat>,
    nextRegid: nat,
    posted: seq<nat>)

  datatype Outcome = Outcome(st: State, status: int)

  /** The parts of a registration request that decide whether it is accepted. */
  datatype RegInfo = RegInfo(endpointValid: bool, flags: nat, replayFlags: nat, expiration: nat, passive: bool)

  predicate Acceptable(info: RegInfo) {
    info.endpointValid && info.flags % 4 != 0 && info.replayFlags % 4 != 3 && info.flags < 0x40
  }

  function IndexOf(s: seq<nat>, x: nat): (i: nat)
    requires x in s
    ensures i < |s| && s[i] == x && x !in s[..i]
  {
    if s[0] == x then 0 else 1 + IndexOf(s[1..], x)
  }

  function Erase(s: seq<nat>, x: nat): (r: seq<nat>)
    requires x in s
  {
    s[..IndexOf(s, x)] + s[IndexOf(s, x) + 1..]
  }

  /** `std::list::remove`. */
  function Without(s: seq<nat>, x: nat): (r: seq<nat>)
    ensures x !in r
    ensures forall y :: y in s && y != x <==> y in r
  {
    if s == [] then [] else if s[0] == x then Without(s[1..], x) else [s[0]] + Without(s[1..], x)
  }

  // ---------------------------------------------------------------- steps

  function Accept(st: State, c: nat): (r: State) {
    st.(bindings := st.bindings[c := []], clients := [c] + st.clients)
  }

  function Activate(st: State, c: nat, r: nat): (t: State)
    requires c in st.bindings && r in st.table
  {
    st.(bindings := st.bindings[c := st.bindings[c] + [r]],
        table := st.table[r := st.table[r].(active := true, touched := true)])
  }

  /** The common end of a binding: inactive again, and an event if it expired meanwhile. */
  function Release(st: State, r: nat): (t: State)
    requires r in st.table
  {
    st.(table := st.table[r := st.table[r].(active := false)],
        posted := if st.table[r].expired then st.posted + [r] else st.posted)
  }

  function Register(st: State, c: nat, info: RegInfo): (o: Outcome)
    requires c in st.bindings
  {
    if !Acceptable(info) then Outcome(st, EINVAL)
    else
      var st' := AddEntry(st, info.expiration);
      Outcome(if info.passive then st' else Activate(st', c, st.nextRegid), SUCCESS)
  }

  /** A fresh registration; with no lifetime it is born expired. */
  function AddEntry(st: State, expiration: nat): (t: State) {
    st.(nextRegid := st.nextRegid + 1,
        table := st.table[st.nextRegid := Registration(true, false, expiration == 0, expiration, false)])
  }

  /** One of the daemon's own: active at once, and without a lifetime. */
  function AddInternal(st: State): (t: State) {
    st.(nextRegid := st.nextRegid + 1,
        table := st.table[st.nextRegid := Registration(false, true, true, 0, false)])
  }

  function Unregister(st: State, c: nat, r: nat): (o: Outcome)
    requires c in st.bindings
  {
    if r !in st.table then Outcome(st, ENOTFOUND)
    else if r in st.bindings[c] && st.table[r].active then
      if st.table[r].expired then Outcome(st, EINVAL)
      else Outcome(st.(table := st.table[r := st.table[r].(expired := true)]), SUCCESS)
    else if st.table[r].active then Outcome(st, EBUSY)
    else Outcome(st.(table := st.table - {r}), SUCCESS)
  }

  function Bind(st: State, c: nat, r: nat): (o: Outcome)
    requires c in st.bindings
  {
    if r !in st.table || !st.table[r].api then Outcome(st, ENOTFOUND)
    else if st.table[r].active then Outcome(st, EBUSY)
    else Outcome(Activate(st, c, r), SUCCESS)
  }

  function Unbind(st: State, c: nat, r: nat): (o: Outcome)
    requires c in st.bindings
  {
    if r !in st.table || !st.table[r].api || r !in st.bindings[c] then Outcome(st, ENOTFOUND)
    else Outcome(Release(st.(bindings := st.bindings[c := Erase(st.bindings[c], r)]), r), SUCCESS)
  }

  /** Everything session `c` has bound is in the table. */
  predicate Known(st: State, c: nat)
    requires c in st.bindings
  {
    forall r :: r in st.bindings[c] ==> r in st.table
  }

  /** Pops and releases every binding of `c`, oldest first. */
  function ReleaseAll(st: State, c: nat): (t: State)
    requires c in st.bindings && Known(st, c)
    ensures t.bindings.Keys == st.bindings.Keys
    decreases |st.bindings[c]|
  {
    var b := st.bindings[c];
    if b == [] then st
    else ReleaseAll(Release(st.(bindings := st.bindings[c := b[1..]]), b[0]), c)
  }

  function CloseClient(st: State, c: nat): (t: State)
    requires c in st.bindings && Known(st, c)
  {
    var t := ReleaseAll(st, c);
    t.(clients := Without(t.clients, c))
  }

  /** A registration's expiration timer fires. */
  function TimerFires(st: State, r: nat): (t: State)
    requires r in st.table
  {
    st.(table := st.table[r := st.table[r].(expired := true)],
        posted := if st.table[r].active then st.posted else st.posted + [r])
  }

  /** The daemon handles the oldest expiry event. */
  function HandleExpired(st: State): (t: State)
    requires st.posted != []
  {
    var r := st.posted[0];
    var st' := st.(posted := st.posted[1..]);
    if r !in st.table then st'
    else if st.table[r].active then st'.(table := st.table[r := st.table[r].(expired := true)])
    else st'.(table := st.table - {r})
  }

  datatype Op =
    | OpAccept(c: nat)
    | OpRegister(c: nat, info: RegInfo)
    | OpUnregister(c: nat, r: nat)
    | OpBind(c: nat, r: nat)
    | OpUnbind(c: nat, r: nat)
    | OpClose(c: nat)
    | OpInternal                   // the daemon adds a registration of its own
    | OpTimer(r: nat)
    | OpDaemon

  predicate Enabled(st: State, op: Op) {
    match op
    case OpAccept(c) => c !in st.bindings
    case OpRegister(c, info) => c in st.bindings && c in st.clients && (Acceptable(info) ==> st.nextRegid < LAST_REGID)
    case OpUnregister(c, r) => c in st.bindings && c in st.clients
    case OpBind(c, r) => c in st.bindings && c in st.clients
    case OpUnbind(c, r) => c in st.bindings && c in st.clients
    case OpClose(c) => c in st.bindings && Known(st, c)
    case OpInternal => st.nextRegid < LAST_REGID
    case OpTimer(r) => r in st.table
    case OpDaemon => st.posted != []
  }

  function Perform(st: State, op: Op): (t: State)
    requires Enabled(st, op)
  {
    match op
    case OpAccept(c) => Accept(st, c)
    case OpRegister(c, info) => Register(st, c, info).st
    case OpUnregister(c, r) => Unregister(st, c, r).st
    case OpBind(c, r) => Bind(st, c, r).st
    case OpUnbind(c, r) => Unbind(st, c, r).st
    case OpClose(c) => CloseClient(st, c)
    case OpInternal => AddInternal(st)
    case OpTimer(r) => TimerFires(st, r)
    case OpDaemon => HandleExpired(st)
  }

  // ---------------------------------------------------------------- invariants

  /** Session `c` has `r` in its bindings. */
  predicate Holds(st: State, c: nat, r: nat) {
    c in st.bindings && r in st.bindings[c]
  }

  ghost predicate Held(st: State, r: nat) {
    exists c :: Holds(st, c, r)
  }

  /**
   An API registration is active if and only if it occurs in exactly one session's bindings, and
   it occurs there once. Only running sessions hold anything. The daemon's own are always active.
   */
  ghost predicate Exclusive(st: State) {
    && (forall c :: c in st.bindings ==> NoDuplicates(st.bindings[c]) && Known(st, c))
    && (forall c, d, r :: Holds(st, c, r) && Holds(st, d, r) ==> c == d)
    && (forall c, r :: Holds(st, c, r) ==> r in st.table && st.table[r].api && st.table[r].active && c in st.clients)
    && (forall r :: r in st.table && st.table[r].api && st.table[r].active ==> Held(st, r))
    && (forall r :: r in st.table && !st.table[r].api ==> st.table[r].active)
    && (forall r :: r in st.table ==> r < st.nextRegid)
    && (forall c :: c in st.clients ==> c in st.bindings)
  }

  /**
   No expired registration is forgotten: one that is expired and inactive has an event waiting,
   unless it was born expired and has never been bound.
   */
  predicate Swept(st: State) {
    forall r :: r in st.table ==>
      && (st.table[r].api && st.table[r].active ==> st.table[r].touched)
      && (st.table[r].expired && !st.table[r].active ==>
            r in st.posted || (st.table[r].expiration == 0 && !st.table[r].touched))
  }

  lemma Witness(st: State, c: nat, r: nat)
    requires Holds(st, c, r)
    ensures Held(st, r)
  {
  }

  lemma ActivateKeeps(st: State, c: nat, r: nat)
    requires Exclusive(st) && Swept(st) && c in st.bindings && c in st.clients
    requires r in st.table && st.table[r].api && !st.table[r].active
    ensures Exclusive(Activate(st, c, r)) && Swept(Activate(st, c, r))
  {
    var t := Activate(st, c, r);
    assert forall d :: !Holds(st, d, r);
    forall d, x | Holds(t, d, x) ensures (x == r && d == c) || Holds(st, d, x) {
    }
    forall x | x in t.table && t.table[x].api && t.table[x].active ensures Held(t, x) {
      if x == r {
        Witness(t, c, r);
      } else {
        var d :| Holds(st, d, x);
        Witness(t, d, x);
      }
    }
  }

  lemma EraseKeeps(s: seq<nat>, x: nat)
    requires x in s && NoDuplicates(s)
    ensures NoDuplicates(Erase(s, x))
    ensures forall y :: y in Erase(s, x) <==> y in s && y != x
  {
    var i := IndexOf(s, x);
    forall y ensures y in Erase(s, x) <==> y in s && y != x {
      if y in s && y != x {
        var k :| 0 <= k < |s| && s[k] == y;
        assert if k < i then Erase(s, x)[k] == y else Erase(s, x)[k - 1] == y;
      }
    }
  }

  /** Taking one binding of `c` away and releasing it. */
  lemma ReleaseKeeps(st: State, c: nat, r: nat, rest: seq<nat>)
    requires Exclusive(st) && Swept(st) && Holds(st, c, r) && NoDuplicates(rest)
    requires forall y :: y in rest <==> y in st.bindings[c] && y != r
    ensures var t := Release(st.(bindings := st.bindings[c := rest]), r);
            Exclusive(t) && Swept(t)
  {
    var t := Release(st.(bindings := st.bindings[c := rest]), r);
    forall d, x | Holds(t, d, x) ensures x != r && Holds(st, d, x) {
      assert Holds(st, d, x);
    }
    forall x | x in t.table && t.table[x].api && t.table[x].active ensures Held(t, x) {
      var d :| Holds(st, d, x);
      Witness(t, d, x);
    }
  }

  lemma {:induction false} ReleaseAllKeeps(st: State, c: nat)
    requires Exclusive(st) && Swept(st) && c in st.bindings
    ensures var t := ReleaseAll(st, c);
            && Exclusive(t) && Swept(t) && t.bindings[c] == [] && t.clients == st.clients
            && (forall d :: d in st.bindings && d != c ==> t.bindings[d] == st.bindings[d])
    decreases |st.bindings[c]|
  {
    var b := st.bindings[c];
    if b != [] {
      assert Holds(st, c, b[0]);
      assert forall y :: y in b[1..] <==> y in b && y != b[0];
      ReleaseKeeps(st, c, b[0], b[1..]);
      var t := Release(st.(bindings := st.bindings[c := b[1..]]), b[0]);
      ReleaseAllKeeps(t, c);
    }
  }

  lemma CloseKeeps(st: State, c: nat)
    requires Exclusive(st) && Swept(st) && c in st.bindings
    ensures Exclusive(CloseClient(st, c)) && Swept(CloseClient(st, c))
    ensures c !in CloseClient(st, c).clients && CloseClient(st, c).bindings[c] == []
  {
    ReleaseAllKeeps(st, c);
    var t := ReleaseAll(st, c);
    var u := CloseClient(st, c);
    assert forall d, r :: Holds(u, d, r) <==> Holds(t, d, r);
    forall r | r in u.table && u.table[r].api && u.table[r].active ensures Held(u, r) {
      var d :| Holds(t, d, r);
      Witness(u, d, r);
    }
  }

  /** Nothing about any registration but `r` has changed. */
  predicate Elsewhere(st: State, t: State, r: nat) {
    && t.table.Keys - {r} == st.table.Keys - {r}
    && forall x :: x in st.table && x != r ==> x in t.table && t.table[x] == st.table[x]
  }

  /** No session has come, gone, or won or lost a binding. */
  predicate SameSessions(st: State, t: State) {
    t.bindings == st.bindings && t.clients == st.clients
  }

  // ---------------------------------------------------------------- teardown

  /** Those of `b` that have expired, in order. */
  function ExpiredOf(table: map<nat, Registration>, b: seq<nat>): (r: seq<nat>)
    requires forall x :: x in b ==> x in table
  {
    if b == [] then [] else (if table[b[0]].expired then [b[0]] else []) + ExpiredOf(table, b[1..])
  }

  lemma {:induction false} ExpiredOfAgrees(t: map<nat, Registration>, u: map<nat, Registration>, b: seq<nat>)
    requires forall x :: x in b ==> x in t && x in u && t[x].expired == u[x].expired
    ensures ExpiredOf(t, b) == ExpiredOf(u, b)
  {
    if b != [] { ExpiredOfAgrees(t, u, b[1..]); }
  }

  lemma {:induction false} ReleaseAllTable(st: State, c: nat)
    requires c in st.bindings && Known(st, c)
    ensures var t := ReleaseAll(st, c);
            && t.table.Keys == st.table.Keys
            && (forall r :: r in st.table ==>
                  t.table[r] == if r in st.bindings[c] then st.table[r].(active := false) else st.table[r])
    decreases |st.bindings[c]|
  {
    var b := st.bindings[c];
    if b != [] {
      ReleaseAllTable(Release(st.(bindings := st.bindings[c := b[1..]]), b[0]), c);
      assert forall r :: r in b <==> r == b[0] || r in b[1..];
    }
  }

  lemma {:induction false} ReleaseAllPosts(st: State, c: nat)
    requires c in st.bindings && Known(st, c)
    ensures var t := ReleaseAll(st, c);
            && t.bindings == st.bindings[c := []]
            && t.posted == st.posted + ExpiredOf(st.table, st.bindings[c])
            && t.clients == st.clients && t.nextRegid == st.nextRegid
    decreases |st.bindings[c]|
  {
    var b := st.bindings[c];
    if b == [] {
      assert st.bindings[c := []] == st.bindings;
    } else {
      var t := Release(st.(bindings := st.bindings[c := b[1..]]), b[0]);
      ReleaseAllPosts(t, c);
      ExpiredOfAgrees(t.table, st.table, b[1..]);
      assert t.bindings[c := []] == st.bindings[c := []];
    }
  }

  /**
   What closing a session does, in full: its registrations become inactive and nothing else about
   any registration changes; exactly the expired ones among them are posted, in binding order;
   and closing it again is a no-op.
   */
  lemma Teardown(st: State, c: nat)
    requires Exclusive(st) && Swept(st) && c in st.bindings
    ensures var t := CloseClient(st, c);
            && (forall d :: d in t.clients <==> d in st.clients && d != c)
            && t.bindings[c] == [] && t.nextRegid == st.nextRegid
            && t.bindings == st.bindings[c := []] && t.table.Keys == st.table.Keys
            && (forall r :: r in st.table ==>
                  t.table[r] == if r in st.bindings[c] then st.table[r].(active := false) else st.table[r])
            && t.posted == st.posted + ExpiredOf(st.table, st.bindings[c])
            && Known(t, c) && CloseClient(t, c) == t
  {
    CloseKeeps(st, c);
    ReleaseAllTable(st, c);
    ReleaseAllPosts(st, c);
    WithoutAbsent(CloseClient(st, c).clients, c);
  }

  lemma {:induction false} WithoutAbsent(s: seq<nat>, x: nat)
    requires x !in s
    ensures Without(s, x) == s
  {
    if s != [] { WithoutAbsent(s[1..], x); }
  }

  // ---------------------------------------------------------------- every step, every run

  /** Changes to the table that leave every activity flag alone keep ownership exclusive. */
  lemma SameBindings(st: State, t: State)
    requires Exclusive(st) && t.bindings == st.bindings && t.clients == st.clients
    requires forall r :: r in t.table ==> r < t.nextRegid
    requires forall r :: r in t.table && t.table[r].api && t.table[r].active ==> r in st.table && st.table[r].api && st.table[r].active
    requires forall r :: r in t.table && !t.table[r].api ==> t.table[r].active
    requires forall r :: r in st.table && st.table[r].api && st.table[r].active ==>
               r in t.table && t.table[r].active && t.table[r].api == st.table[r].api
    ensures Exclusive(t)
  {
    assert forall c, r :: Holds(t, c, r) <==> Holds(st, c, r);
    forall c | c in t.bindings ensures Known(t, c) {
      forall r | r in t.bindings[c] ensures r in t.table { assert Holds(st, c, r); }
    }
    forall r | r in t.table && t.table[r].api && t.table[r].active ensures Held(t, r) {
      var d :| Holds(st, d, r);
      Witness(t, d, r);
    }
  }

  lemma AddEntryKeeps(st: State, expiration: nat)
    requires Exclusive(st) && Swept(st)
    ensures Exclusive(AddEntry(st, expiration)) && Swept(AddEntry(st, expiration))
  {
    SameBindings(st, AddEntry(st, expiration));
  }

  /** A registration of the daemon's own is new, active at once, and held by nobody. */
  lemma AddInternalKeeps(st: State)
    requires Exclusive(st) && Swept(st)
    ensures Exclusive(AddInternal(st)) && Swept(AddInternal(st))
    ensures var t, r := AddInternal(st), st.nextRegid;
            && r !in st.table && r in t.table && !t.table[r].api && t.table[r].active && t.nextRegid == r + 1
            && Elsewhere(st, t, r) && SameSessions(st, t) && t.posted == st.posted
  {
    SameBindings(st, AddInternal(st));
  }

  lemma RegisterKeeps(st: State, c: nat, info: RegInfo)
    requires Exclusive(st) && Swept(st) && c in st.bindings && c in st.clients
    ensures Exclusive(Register(st, c, info).st) && Swept(Register(st, c, info).st)
  {
    if Acceptable(info) {
      AddEntryKeeps(st, info.expiration);
      if !info.passive { ActivateKeeps(AddEntry(st, info.expiration), c, st.nextRegid); }
    }
  }

  lemma UnregisterKeeps(st: State, c: nat, r: nat)
    requires Exclusive(st) && Swept(st) && c in st.bindings
    ensures Exclusive(Unregister(st, c, r).st) && Swept(Unregister(st, c, r).st)
  {
    SameBindings(st, Unregister(st, c, r).st);
  }

  lemma UnbindKeeps(st: State, c: nat, r: nat)
    requires Exclusive(st) && Swept(st) && c in st.bindings
    ensures Exclusive(Unbind(st, c, r).st) && Swept(Unbind(st, c, r).st)
  {
    if r in st.bindings[c] {
      assert Holds(st, c, r);
      EraseKeeps(st.bindings[c], r);
      ReleaseKeeps(st, c, r, Erase(st.bindings[c], r));
    }
  }

  lemma AcceptKeeps(st: State, c: nat)
    requires Exclusive(st) && Swept(st) && c !in st.bindings
    ensures Exclusive(Accept(st, c)) && Swept(Accept(st, c))
  {
    var t := Accept(st, c);
    assert forall d, r :: Holds(t, d, r) <==> Holds(st, d, r);
    forall r | r in t.table && t.table[r].api && t.table[r].active ensures Held(t, r) {
      var d :| Holds(st, d, r);
      Witness(t, d, r);
    }
  }

  /** A timer posts its event at once for exactly the API registrations that nobody holds. */
  lemma TimerKeeps(st: State, r: nat)
    requires Exclusive(st) && Swept(st) && r in st.table
    ensures Exclusive(TimerFires(st, r)) && Swept(TimerFires(st, r))
    ensures TimerFires(st, r).posted == if st.table[r].api && !Held(st, r) then st.posted + [r] else st.posted
    ensures var t := TimerFires(st, r);
            && r in t.table && t.table[r] == st.table[r].(expired := true)
            && Elsewhere(st, t, r) && SameSessions(st, t) && t.nextRegid == st.nextRegid
  {
    SameBindings(st, TimerFires(st, r));
    ActiveIff(st, r);
  }

  lemma ActiveIff(st: State, r: nat)
    requires Exclusive(st) && r in st.table
    ensures st.table[r].active <==> !st.table[r].api || Held(st, r)
  {
  }

  /**
   The daemon removes the registration of its oldest expiry event, and only if nobody holds it; one
   that is held is marked expired, and nothing else changes.
   */
  lemma HandleExpiredKeeps(st: State)
    requires Exclusive(st) && Swept(st) && st.posted != []
    ensures Exclusive(HandleExpired(st)) && Swept(HandleExpired(st))
    ensures forall r :: r in HandleExpired(st).table <==>
              r in st.table && !(r == st.posted[0] && st.table[r].api && !Held(st, r))
    ensures var t, r := HandleExpired(st), st.posted[0];
            && t.posted == st.posted[1..] && (r in t.table ==> t.table[r] == st.table[r].(expired := true))
            && Elsewhere(st, t, r) && SameSessions(st, t) && t.nextRegid == st.nextRegid
  {
    SameBindings(st, HandleExpired(st));
    if st.posted[0] in st.table { ActiveIff(st, st.posted[0]); }
  }

  /** Every step of any session, of the timers or of the daemon keeps both invariants. */
  lemma PerformKeeps(st: State, op: Op)
    requires Exclusive(st) && Swept(st) && Enabled(st, op)
    ensures Exclusive(Perform(st, op)) && Swept(Perform(st, op))
  {
    match op
    case OpAccept(c) => AcceptKeeps(st, c);
    case OpRegister(c, info) => RegisterKeeps(st, c, info);
    case OpUnregister(c, r) => UnregisterKeeps(st, c, r);
    case OpBind(c, r) => if Bind(st, c, r).status == SUCCESS { ActivateKeeps(st, c, r); }
    case OpUnbind(c, r) => UnbindKeeps(st, c, r);
    case OpClose(c) => CloseKeeps(st, c);
    case OpInternal => AddInternalKeeps(st);
    case OpTimer(r) => TimerKeeps(st, r);
    case OpDaemon => HandleExpiredKeeps(st);
  }

  /** The daemon at start: no session, its own registrations, and inactive API ones from its store. */
  predicate Initial(st: State) {
    && st.bindings == map[] && st.clients == [] && st.posted == []
    && (forall r :: r in st.table ==>
          && r < st.nextRegid && (st.table[r].active <==> !st.table[r].api)
          && (st.table[r].expired && st.table[r].api ==> st.table[r].expiration == 0 && !st.table[r].touched))
  }

  predicate IsRun(st: State, ops: seq<Op>)
    decreases |ops|
  {
    ops == [] || (Enabled(st, ops[0]) && IsRun(Perform(st, ops[0]), ops[1..]))
  }

  function After(st: State, ops: seq<Op>): (t: State)
    requires IsRun(st, ops)
    decreases |ops|
  {
    if ops == [] then st else After(Perform(st, ops[0]), ops[1..])
  }

  lemma {:induction false} RunKeeps(st: State, ops: seq<Op>)
    requires Exclusive(st) && Swept(st) && IsRun(st, ops)
    ensures Exclusive(After(st, ops)) && Swept(After(st, ops))
    decreases |ops|
  {
    if ops != [] {
      PerformKeeps(st, ops[0]);
      RunKeeps(Perform(st, ops[0]), ops[1..]);
    }
  }

  /**
   Exclusive binding over every run, by any interleaving of any number of sessions, in a table that
   holds the daemon's own registrations too: an API registration is active if and only if it is
   held, by exactly one running session, and the daemon's own are active and held by nobody.
   Whatever is held can always be released by a close, and once every expiry event is handled, all
   that is left expired and inactive are registrations that asked for no lifetime and were never
   bound.
   */
  lemma RunExclusive(st: State, ops: seq<Op>)
    requires Initial(st) && IsRun(st, ops)
    ensures var t := After(st, ops);
            && (forall r :: r in t.table && t.table[r].api ==> (t.table[r].active <==> Held(t, r)))
            && (forall r :: r in t.table && !t.table[r].api ==> t.table[r].active && !Held(t, r))
            && (forall c, d, r :: Holds(t, c, r) && Holds(t, d, r) ==> c == d)
            && (forall c, r :: Holds(t, c, r) ==> c in t.clients && r in t.table)
            && (forall c :: c in t.bindings ==> NoDuplicates(t.bindings[c]) && Enabled(t, OpClose(c)))
            && (t.posted == [] ==> forall r :: r in t.table && t.table[r].expired && !t.table[r].active ==>
                  t.table[r].expiration == 0 && !t.table[r].touched)
  {
    RunKeeps(st, ops);
    var t := After(st, ops);
    forall r | r in t.table && Held(t, r) ensures t.table[r].active && t.table[r].api {
      var c :| Holds(t, c, r);
    }
  }

  // ---------------------------------------------------------------- what the replies mean

  /**
   What a request asks for is valid: an endpoint, one of three actions on failure with any of four
   flags above it, and one of three ways to replay.
   */
  ghost predicate ValidRequest(info: RegInfo) {
    && info.endpointValid && info.replayFlags % 4 in {0, 1, 2}
    && exists action, flags :: 1 <= action <= 3 && 0 <= flags < 16 && info.flags == FlagWord(action, flags)
  }

  function FlagWord(action: nat, flags: nat): nat {
    4 * flags + action
  }

  // The answers that are due, in terms of who holds what.

  ghost function RegisterAnswer(info: RegInfo): int {
    if ValidRequest(info) then SUCCESS else EINVAL
  }

  ghost predicate HeldByOther(st: State, c: nat, r: nat) {
    exists d :: d != c && Holds(st, d, r)
  }

  ghost function UnregisterAnswer(st: State, c: nat, r: nat): int {
    if r !in st.table then ENOTFOUND
    else if !st.table[r].api || HeldByOther(st, c, r) then EBUSY
    else if Holds(st, c, r) && st.table[r].expired then EINVAL
    else SUCCESS
  }

  ghost function BindAnswer(st: State, r: nat): int {
    if r !in st.table || !st.table[r].api then ENOTFOUND else if Held(st, r) then EBUSY else SUCCESS
  }

  ghost function UnbindAnswer(st: State, c: nat, r: nat): int {
    if Holds(st, c, r) then SUCCESS else ENOTFOUND
  }

  lemma AcceptableIsValid(info: RegInfo)
    ensures Acceptable(info) <==> ValidRequest(info)
  {
    if Acceptable(info) {
      assert info.flags == FlagWord(info.flags % 4, info.flags / 4);
    }
  }

  /**
   Register succeeds exactly on a valid request. The new registration has the next regid; it is held
   by the session, and active, unless it was asked to be passive, and it has expired already exactly
   when it asked for no lifetime. Nothing else changes.
   */
  lemma RegisterMeaning(st: State, c: nat, info: RegInfo)
    requires Exclusive(st) && c in st.bindings
    ensures Register(st, c, info).status == RegisterAnswer(info)
    ensures Register(st, c, info).status != SUCCESS ==> Register(st, c, info).st == st
    ensures var t, r := Register(st, c, info).st, st.nextRegid;
            Register(st, c, info).status == SUCCESS ==>
              && r !in st.table && r in t.table && t.table[r].api && t.table[r].expiration == info.expiration
              && (t.table[r].expired <==> info.expiration == 0)
              && (t.table[r].active <==> !info.passive) && (Holds(t, c, r) <==> !info.passive)
              && t.bindings == st.bindings[c := st.bindings[c] + if info.passive then [] else [r]]
              && Elsewhere(st, t, r) && t.clients == st.clients && t.posted == st.posted && t.nextRegid == r + 1
  {
    AcceptableIsValid(info);
    assert st.bindings[c] + [] == st.bindings[c] && st.bindings[c := st.bindings[c]] == st.bindings;
    assert !Holds(st, c, st.nextRegid);
  }

  /**
   Unregister takes a registration out of the table exactly when it is inactive, which is to say
   when it is an API registration that nobody holds. The daemon's own are busy, like another's. One
   the session holds itself is marked expired, and nothing else ever changes.
   */
  lemma UnregisterMeaning(st: State, c: nat, r: nat)
    requires Exclusive(st) && c in st.bindings
    ensures var o := Unregister(st, c, r);
            && o.status == UnregisterAnswer(st, c, r)
            && (r in o.st.table <==> r in st.table && (Held(st, r) || !st.table[r].api))
            && (r in o.st.table ==> o.st.table[r] == if Holds(st, c, r) then st.table[r].(expired := true) else st.table[r])
            && Elsewhere(st, o.st, r) && SameSessions(st, o.st)
            && o.st.posted == st.posted && o.st.nextRegid == st.nextRegid
  {
    if Holds(st, c, r) { Witness(st, c, r); }
    if Held(st, r) { var d :| Holds(st, d, r); }
  }

  /** Bind succeeds exactly on a known API registration that no session holds. */
  lemma BindMeaning(st: State, c: nat, r: nat)
    requires Exclusive(st) && c in st.bindings
    ensures var o := Bind(st, c, r);
            && o.status == BindAnswer(st, r)
            && (o.status == SUCCESS ==>
                  && Holds(o.st, c, r) && o.st.bindings == st.bindings[c := st.bindings[c] + [r]]
                  && r in o.st.table && o.st.table[r] == st.table[r].(active := true, touched := true)
                  && Elsewhere(st, o.st, r)
                  && o.st.clients == st.clients && o.st.posted == st.posted && o.st.nextRegid == st.nextRegid)
            && (o.status != SUCCESS ==> o.st == st)
  {
    if Held(st, r) { var d :| Holds(st, d, r); }
  }

  /**
   Unbind succeeds exactly on what the session holds. It then no longer does, and keeps the rest in
   order; the registration is inactive, and if it has expired its event is posted.
   */
  lemma UnbindMeaning(st: State, c: nat, r: nat)
    requires Exclusive(st) && c in st.bindings
    ensures var o := Unbind(st, c, r);
            && o.status == UnbindAnswer(st, c, r)
            && (o.status == SUCCESS ==>
                  && !Held(o.st, r) && o.st.bindings == st.bindings[c := Without(st.bindings[c], r)]
                  && r in o.st.table && o.st.table[r] == st.table[r].(active := false) && Elsewhere(st, o.st, r)
                  && o.st.posted == st.posted + (if st.table[r].expired then [r] else [])
                  && o.st.clients == st.clients && o.st.nextRegid == st.nextRegid)
            && (o.status != SUCCESS ==> o.st == st)
  {
    if Holds(st, c, r) {
      var b := st.bindings[c];
      EraseIsWithout(b, r);
      var t := Unbind(st, c, r).st;
      forall d | Holds(t, d, r) ensures false {
        assert Holds(st, d, r);
      }
    }
  }

  lemma {:induction false} EraseIsWithout(s: seq<nat>, x: nat)
    requires x in s && NoDuplicates(s)
    ensures Erase(s, x) == Without(s, x)
  {
    if s[0] == x {
      assert x !in s[1..];
      WithoutAbsent(s[1..], x);
    } else {
      assert forall i, j :: 0 <= i < j < |s[1..]| ==> s[1..][i] == s[i + 1] && s[1..][j] == s[j + 1];
      EraseIsWithout(s[1..], x);
      assert Erase(s, x) == [s[0]] + Erase(s[1..], x);
    }
  }

  /** Unbind undoes bind, except for the events an expired registration leaves behind. */
  lemma BindUnbind(st: State, c: nat, r: nat)
    requires Exclusive(st) && c in st.bindings && Bind(st, c, r).status == SUCCESS
    ensures var o := Unbind(Bind(st, c, r).st, c, r);
            && o.status == SUCCESS
            && o.st.bindings == st.bindings && o.st.clients == st.clients
            && o.st.table == st.table[r := st.table[r].(touched := true)]
            && o.st.posted == st.posted + (if st.table[r].expired then [r] else [])
  {
    var t := Bind(st, c, r).st;
    assert !Holds(st, c, r);
    var b := st.bindings[c];
    var i := IndexOf(b + [r], r);
    assert forall k :: 0 <= k < |b| ==> (b + [r])[k] != r;
    assert i == |b|;
    assert Erase(b + [r], r) == b;
    assert t.bindings[c := b] == st.bindings;
  }
}
