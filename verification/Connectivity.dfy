/**
 The connectivity table of the simulator. `set_state` takes node names or the wildcard "*", and
 calls itself for the nodes a wildcard stands for; each change of the table is passed on to the
 links of the first node.
 */
module Connectivity {
  import opened Collections

  const ANY := "*"

  datatype ConnState = ConnState(open: bool, bw: nat, latency: real)

  /** A link of some node: the node it leads to, whether it is open, and its token bucket's rate. */
  datatype Link = Link(peer: string, open: bool, rate: nat)

  /** A request to close link number `index` of `node`, posted to that node. */
  datatype Request = Request(node: string, index: nat)

  datatype Net = Net(table: map<string, ConnState>, links: map<string, seq<Link>>, posted: seq<Request>, active: string)

  /** Topology's node table: no node is called "*" and no name has a comma in it. */
  predicate Names(nodes: seq<string>) {
    forall i :: 0 <= i < |nodes| ==> nodes[i] != ANY && ',' !in nodes[i]
  }

  function Key(a: string, b: string): string {
    a + "," + b
  }

  lemma {:induction false} KeyInjective(a: string, b: string, c: string, d: string)
    requires ',' !in a && ',' !in c
    ensures Key(a, b) == Key(c, d) <==> a == c && b == d
  {
    if Key(a, b) == Key(c, d) {
      assert Key(a, b)[|a|] == ',' && Key(c, d)[|c|] == ',';
      assert forall i :: 0 <= i < |a| ==> Key(a, b)[i] == a[i] && a[i] in a;
      assert forall i :: 0 <= i < |c| ==> Key(c, d)[i] == c[i] && c[i] in c;
      assert |a| == |c|;
      assert a == Key(a, b)[..|a|] == c;
      assert b == Key(a, b)[|a| + 1..] == d;
    }
  }

  function LinksOf(net: Net, a: string): seq<Link> {
    if a in net.links then net.links[a] else []
  }

  function WithRate(ls: seq<Link>, bw: nat): (r: seq<Link>)
    ensures |r| == |ls|
    ensures forall i :: 0 <= i < |ls| ==> r[i] == ls[i].(rate := bw)
  {
    seq(|ls|, i requires 0 <= i < |ls| => ls[i].(rate := bw))
  }

  predicate Closes(l: Link, b: string, cs: ConnState) {
    l.peer == b && !cs.open && l.open
  }

  /** The requests for the links of `a` to `b`, when they are to close. */
  function Requests(ls: seq<Link>, a: string, b: string, cs: ConnState): seq<Request> {
    if ls == [] then []
    else
      var n := |ls| - 1;
      Requests(ls[..n], a, b, cs) + (if Closes(ls[n], b, cs) then [Request(a, n)] else [])
  }

  /** `update_connectivity`. The node made active is left so. */
  function UpdateLinks(net: Net, a: string, b: string, cs: ConnState): Net {
    net.(active := a,
         links := net.links[a := WithRate(LinksOf(net, a), cs.bw)],
         posted := net.posted + Requests(LinksOf(net, a), a, b, cs))
  }

  function SetPair(net: Net, p: (string, string), cs: ConnState): Net {
    UpdateLinks(net.(table := net.table[Key(p.0, p.1) := cs]), p.0, p.1, cs)
  }

  function SetPairs(net: Net, ps: seq<(string, string)>, cs: ConnState): Net {
    if ps == [] then net else SetPair(SetPairs(net, ps[..|ps| - 1], cs), ps[|ps| - 1], cs)
  }

  // ---------------------------------------------------------------- the pairs a call stands for

  /** The nodes other than `name`, in the table's order. */
  function Others(nodes: seq<string>, name: string): seq<string> {
    if nodes == [] then []
    else Others(nodes[..|nodes| - 1], name) + (if nodes[|nodes| - 1] == name then [] else [nodes[|nodes| - 1]])
  }

  function PairWith(a: string, bs: seq<string>): seq<(string, string)> {
    if bs == [] then [] else PairWith(a, bs[..|bs| - 1]) + [(a, bs[|bs| - 1])]
  }

  function PairsFrom(nodes: seq<string>, a: string, n2: string): seq<(string, string)> {
    if n2 == ANY then PairWith(a, Others(nodes, a)) else [(a, n2)]
  }

  function PairsFromEach(nodes: seq<string>, froms: seq<string>, n2: string): seq<(string, string)> {
    if froms == [] then []
    else PairsFromEach(nodes, froms[..|froms| - 1], n2) + PairsFrom(nodes, froms[|froms| - 1], n2)
  }

  /** The pairs `set_state(n1, n2, ...)` reaches, in order. */
  function Pairs(nodes: seq<string>, n1: string, n2: string): seq<(string, string)> {
    if n1 == ANY then PairsFromEach(nodes, Others(nodes, n2), n2) else PairsFrom(nodes, n1, n2)
  }

  /** What the arguments mean: a wildcard matches every node, but never a node with itself. */
  predicate Matches(nodes: seq<string>, n1: string, n2: string, p: (string, string)) {
    && (if n1 == ANY then p.0 in nodes else p.0 == n1)
    && (if n2 == ANY then p.1 in nodes else p.1 == n2)
    && (n1 == ANY || n2 == ANY ==> p.0 != p.1)
  }

  lemma {:induction false} InOthers(nodes: seq<string>, name: string, x: string)
    ensures x in Others(nodes, name) <==> x in nodes && x != name
  {
    if nodes != [] {
      InOthers(nodes[..|nodes| - 1], name, x);
      assert nodes == nodes[..|nodes| - 1] + [nodes[|nodes| - 1]];
    }
  }

  lemma {:induction false} InPairWith(a: string, bs: seq<string>, p: (string, string))
    ensures p in PairWith(a, bs) <==> p.0 == a && p.1 in bs
  {
    if bs != [] {
      InPairWith(a, bs[..|bs| - 1], p);
      assert bs == bs[..|bs| - 1] + [bs[|bs| - 1]];
    }
  }

  lemma InPairsFrom(nodes: seq<string>, a: string, n2: string, p: (string, string))
    ensures p in PairsFrom(nodes, a, n2) <==> p.0 == a && (if n2 == ANY then p.1 in nodes && p.1 != a else p.1 == n2)
  {
    if n2 == ANY {
      InPairWith(a, Others(nodes, a), p);
      InOthers(nodes, a, p.1);
    }
  }

  lemma {:induction false} InPairsFromEach(nodes: seq<string>, froms: seq<string>, n2: string, p: (string, string))
    ensures p in PairsFromEach(nodes, froms, n2) <==> p.0 in froms && p in PairsFrom(nodes, p.0, n2)
  {
    if froms != [] {
      var front, last := froms[..|froms| - 1], froms[|froms| - 1];
      assert froms == front + [last];
      InPairsFromEach(nodes, front, n2, p);
      InPairsFrom(nodes, last, n2, p);
    }
  }

  /** The recursion reaches exactly the matching pairs. */
  lemma PairsAreMatches(nodes: seq<string>, n1: string, n2: string, p: (string, string))
    requires Names(nodes)
    ensures p in Pairs(nodes, n1, n2) <==> Matches(nodes, n1, n2, p)
  {
    if n1 == ANY {
      InPairsFromEach(nodes, Others(nodes, n2), n2, p);
      InOthers(nodes, n2, p.0);
      InPairsFrom(nodes, p.0, n2, p);
    } else {
      InPairsFrom(nodes, n1, n2, p);
    }
  }

  // ---------------------------------------------------------------- what the table says afterwards

  function Lookup(table: map<string, ConnState>, a: string, b: string): Option<ConnState> {
    if Key(a, b) in table then Some(table[Key(a, b)]) else None
  }

  lemma {:induction false} LookupAfterPairs(net: Net, ps: seq<(string, string)>, cs: ConnState, a: string, b: string)
    requires ',' !in a && forall i :: 0 <= i < |ps| ==> ',' !in ps[i].0
    ensures Lookup(SetPairs(net, ps, cs).table, a, b) == if (a, b) in ps then Some(cs) else Lookup(net.table, a, b)
  {
    if ps != [] {
      var front, last := ps[..|ps| - 1], ps[|ps| - 1];
      assert ps == front + [last];
      LookupAfterPairs(net, front, cs, a, b);
      KeyInjective(a, b, last.0, last.1);
    }
  }

  /**
   The table is updated point by point: `lookup` gives the new state at exactly the ordered pairs
   the arguments match, and the old one everywhere else.
   */
  lemma SetStateIsPointwise(nodes: seq<string>, net: Net, n1: string, n2: string, cs: ConnState, a: string, b: string)
    requires Names(nodes) && ',' !in n1 && ',' !in a
    ensures Lookup(SetPairs(net, Pairs(nodes, n1, n2), cs).table, a, b)
            == if Matches(nodes, n1, n2, (a, b)) then Some(cs) else Lookup(net.table, a, b)
  {
    var ps := Pairs(nodes, n1, n2);
    forall i | 0 <= i < |ps| ensures ',' !in ps[i].0 {
      assert ps[i] in ps;
      PairsAreMatches(nodes, n1, n2, ps[i]);
    }
    LookupAfterPairs(net, ps, cs, a, b);
    PairsAreMatches(nodes, n1, n2, (a, b));
  }

  // ---------------------------------------------------------------- what it does to links

  predicate FirstOf(ps: seq<(string, string)>, a: string) {
    exists i :: 0 <= i < |ps| && ps[i].0 == a
  }

  /**
   The rate of a link changes whenever its node is the first of any matched pair, also when the
   link leads to a node that is not the second of any.
   */
  lemma {:induction false} RateOfEveryLink(net: Net, ps: seq<(string, string)>, cs: ConnState, a: string)
    ensures LinksOf(SetPairs(net, ps, cs), a) == if FirstOf(ps, a) then WithRate(LinksOf(net, a), cs.bw) else LinksOf(net, a)
  {
    if ps != [] {
      var front, last := ps[..|ps| - 1], ps[|ps| - 1];
      RateOfEveryLink(net, front, cs, a);
      assert forall i :: 0 <= i < |front| ==> ps[i] == front[i];
      assert WithRate(WithRate(LinksOf(net, a), cs.bw), cs.bw) == WithRate(LinksOf(net, a), cs.bw);
      if last.0 == a {
        assert ps[|ps| - 1].0 == a;
      } else {
        assert FirstOf(ps, a) <==> FirstOf(front, a);
      }
    }
  }

  /** A request is made for exactly the open links to the node in question, when it is closing. */
  lemma {:induction false} InRequests(ls: seq<Link>, a: string, b: string, cs: ConnState, r: Request)
    ensures r in Requests(ls, a, b, cs) <==> r.node == a && r.index < |ls| && Closes(ls[r.index], b, cs)
  {
    if ls != [] {
      InRequests(ls[..|ls| - 1], a, b, cs, r);
    }
  }

  /** One call requests the closing of exactly the open links along the matched pairs, if they close. */
  lemma {:induction false} RequestedIff(net: Net, ps: seq<(string, string)>, cs: ConnState, r: Request)
    requires r !in net.posted
    ensures r in SetPairs(net, ps, cs).posted
            <==> r.index < |LinksOf(net, r.node)|
                 && (r.node, LinksOf(net, r.node)[r.index].peer) in ps
                 && !cs.open && LinksOf(net, r.node)[r.index].open
  {
    if ps != [] {
      var front, last := ps[..|ps| - 1], ps[|ps| - 1];
      assert ps == front + [last];
      RequestedIff(net, front, cs, r);
      var mid := SetPairs(net, front, cs);
      RateOfEveryLink(net, front, cs, r.node);
      InRequests(LinksOf(mid, last.0), last.0, last.1, cs, r);
    }
  }

  // ---------------------------------------------------------------- the table itself

  /** How many wildcards are left to resolve. */
  function Wildcards(n1: string, n2: string): nat {
    (if n1 == ANY then 1 else 0) + (if n2 == ANY then 1 else 0)
  }

  predicate Known(nodes: seq<string>, ps: seq<(string, string)>) {
    forall p :: p in ps ==> p.0 in nodes && p.1 in nodes
  }

  lemma SetPairsAppend(net: Net, a: seq<(string, string)>, b: seq<(string, string)>, cs: ConnState)
    ensures SetPairs(net, a + b, cs) == SetPairs(SetPairs(net, a, cs), b, cs)
    decreases |b|
  {
    if b == [] {
      assert a + b == a;
    } else {
      var front, p := b[..|b| - 1], b[|b| - 1];
      assert (a + b)[..|a + b| - 1] == a + front;
      SetPairsAppend(net, a, front, cs);
    }
  }

  lemma OthersPrefix(nodes: seq<string>, i: nat, name: string)
    requires i < |nodes|
    ensures Others(nodes[..i + 1], name) == Others(nodes[..i], name) + (if nodes[i] == name then [] else [nodes[i]])
  {
    assert nodes[..i + 1][..i] == nodes[..i];
  }

  lemma PairsFromEachSnoc(nodes: seq<string>, froms: seq<string>, a: string, n2: string)
    ensures PairsFromEach(nodes, froms + [a], n2) == PairsFromEach(nodes, froms, n2) + PairsFrom(nodes, a, n2)
  {
    assert (froms + [a])[..|froms|] == froms;
  }

  lemma PairWithSnoc(a: string, bs: seq<string>, b: string)
    ensures PairWith(a, bs + [b]) == PairWith(a, bs) + [(a, b)]
  {
    assert (bs + [b])[..|bs|] == bs;
  }

  /** The first `i` links have the new rate. */
  function PartlySet(ls: seq<Link>, i: nat, bw: nat): (r: seq<Link>)
    requires i <= |ls|
    ensures |r| == |ls|
    ensures forall k :: 0 <= k < |ls| ==> r[k] == if k < i then ls[k].(rate := bw) else ls[k]
  {
    if i == 0 then ls else PartlySet(ls, i - 1, bw)[i - 1 := ls[i - 1].(rate := bw)]
  }

  lemma NothingSet(links: map<string, seq<Link>>, a: string, bw: nat)
    requires a in links
    ensures links[a := PartlySet(links[a], 0, bw)] == links
  {
  }

  /** Setting the next link in the table. */
  lemma LinkStep(links: map<string, seq<Link>>, a: string, ls: seq<Link>, i: nat, bw: nat)
    requires i < |ls|
    ensures links[a := PartlySet(ls, i, bw)][a := PartlySet(ls, i, bw)[i := ls[i].(rate := bw)]]
            == links[a := PartlySet(ls, i + 1, bw)]
  {
  }

  lemma AllSet(ls: seq<Link>, bw: nat)
    ensures PartlySet(ls, |ls|, bw) == WithRate(ls, bw)
  {
  }

  lemma RequestsStep(ls: seq<Link>, i: nat, a: string, b: string, cs: ConnState)
    requires i < |ls|
    ensures Requests(ls[..i + 1], a, b, cs) == Requests(ls[..i], a, b, cs) + (if Closes(ls[i], b, cs) then [Request(a, i)] else [])
  {
    assert ls[..i + 1][..i] == ls[..i];
  }

  lemma ToOneMore(nodes: seq<string>, net: Net, a: string, bs: seq<string>, b: string, cs: ConnState)
    ensures SetPairs(net, PairWith(a, bs + [b]), cs) == SetPairs(SetPairs(net, PairWith(a, bs), cs), [(a, b)], cs)
    ensures Known(nodes, PairWith(a, bs)) && a in nodes && b in nodes ==> Known(nodes, PairWith(a, bs + [b]))
  {
    PairWithSnoc(a, bs, b);
    SetPairsAppend(net, PairWith(a, bs), [(a, b)], cs);
  }

  lemma FromOneMore(nodes: seq<string>, net: Net, froms: seq<string>, a: string, n2: string, cs: ConnState)
    ensures SetPairs(net, PairsFromEach(nodes, froms + [a], n2), cs)
            == SetPairs(SetPairs(net, PairsFromEach(nodes, froms, n2), cs), PairsFrom(nodes, a, n2), cs)
    ensures Known(nodes, PairsFromEach(nodes, froms, n2)) && Known(nodes, PairsFrom(nodes, a, n2))
            ==> Known(nodes, PairsFromEach(nodes, froms + [a], n2))
  {
    PairsFromEachSnoc(nodes, froms, a, n2);
    SetPairsAppend(net, PairsFromEach(nodes, froms, n2), PairsFrom(nodes, a, n2), cs);
  }

  lemma PairsOfNames(nodes: seq<string>, a: string, b: string)
    requires a != ANY && b != ANY
    ensures Pairs(nodes, a, b) == [(a, b)]
    ensures Known(nodes, Pairs(nodes, a, b)) <==> a in nodes && b in nodes
  {
    assert (a, b) in [(a, b)];
  }

  class Connectivity {
    const nodes: seq<string>
    var table: map<string, ConnState>
    var links: map<string, seq<Link>>
    var posted: seq<Request>
    var active: string

    function Abs(): Net
      reads this
    {
      Net(table, links, posted, active)
    }

    constructor (nodes: seq<string>, links: map<string, seq<Link>>, active: string)
      ensures this.nodes == nodes && Abs() == Net(map[], links, [], active)
    {
      this.nodes, this.links, this.active := nodes, links, active;
      table, posted := map[], [];
    }

    /** What is done to one link: its rate, whoever its peer is, and perhaps a request to close it. */
    method UpdateLink(n1: string, i: nat, n2: string, cs: ConnState)
      requires n1 in links && i < |links[n1]|
      modifies `links, `posted
      ensures links == old(links)[n1 := old(links[n1])[i := old(links[n1][i]).(rate := cs.bw)]]
      ensures posted == old(posted) + if Closes(old(links[n1][i]), n2, cs) then [Request(n1, i)] else []
    {
      var link := links[n1][i];
      links := links[n1 := links[n1][i := link.(rate := cs.bw)]];
      if link.peer != n2 { return; }
      if cs.open == false && link.open {
        posted := posted + [Request(n1, i)];
      }
    }

    /** One turn of the loop over the links of a node; `ls` and `start` are as before the loop. */
    method UpdateNext(n1: string, i: nat, n2: string, cs: ConnState, ghost ls: seq<Link>, ghost start: Net)
      requires n1 in links && i < |ls| && links == start.links[n1 := PartlySet(ls, i, cs.bw)]
      requires posted == start.posted + Requests(ls[..i], n1, n2, cs)
      modifies `links, `posted
      ensures links == start.links[n1 := PartlySet(ls, i + 1, cs.bw)]
      ensures posted == start.posted + Requests(ls[..i + 1], n1, n2, cs)
    {
      RequestsStep(ls, i, n1, n2, cs);
      LinkStep(start.links, n1, ls, i, cs.bw);
      UpdateLink(n1, i, n2, cs);
    }

    /** The loop over the links of a node. */
    method UpdateLinksOf(n1: string, n2: string, cs: ConnState)
      requires n1 in links
      modifies `links, `posted
      ensures links == old(links)[n1 := WithRate(old(links[n1]), cs.bw)]
      ensures posted == old(posted) + Requests(old(links[n1]), n1, n2, cs)
    {
      ghost var ls, start := links[n1], Abs();
      var i := 0;
      NothingSet(start.links, n1, cs.bw);
      assert ls[..0] == [];
      while i < |links[n1]|
        invariant i <= |ls| && n1 in links && |links[n1]| == |ls|
        invariant links == start.links[n1 := PartlySet(ls, i, cs.bw)]
        invariant posted == start.posted + Requests(ls[..i], n1, n2, cs)
      {
        UpdateNext(n1, i, n2, cs, ls, start);
        i := i + 1;
      }
      AllSet(ls, cs.bw);
      assert ls[..|ls|] == ls;
    }

    method UpdateConnectivity(n1: string, n2: string, cs: ConnState)
      modifies `links, `posted, `active
      ensures Abs() == UpdateLinks(old(Abs()), n1, n2, cs)
    {
      active := n1;
      if n1 !in links {
        links := links[n1 := []];
      }
      UpdateLinksOf(n1, n2, cs);
    }

    /** False when an assertion of `update_connectivity` fails: one of the names is no node. */
    method SetState(n1: string, n2: string, cs: ConnState) returns (ok: bool)
      requires Names(nodes)
      modifies this
      ensures ok <==> Known(nodes, Pairs(nodes, n1, n2))
      ensures ok ==> Abs() == SetPairs(old(Abs()), Pairs(nodes, n1, n2), cs)
      decreases Wildcards(n1, n2), 1
    {
      if n1 == ANY {
        ok := SetFromAny(n2, cs);
      } else if n2 == ANY {
        ok := SetToAny(n1, cs);
      } else {
        table := table[Key(n1, n2) := cs];
        if n1 !in nodes || n2 !in nodes {
          assert (n1, n2) in Pairs(nodes, n1, n2);
          return false;
        }
        UpdateConnectivity(n1, n2, cs);
        assert Pairs(nodes, n1, n2)[..0] == [];
        ok := true;
      }
    }

    /** The same for two names, as the recursion reaches it. */
    method SetNames(a: string, b: string, cs: ConnState) returns (ok: bool)
      requires Names(nodes) && a != ANY && b != ANY
      modifies this
      ensures ok <==> a in nodes && b in nodes
      ensures ok ==> Abs() == SetPairs(old(Abs()), [(a, b)], cs)
      decreases Wildcards(a, b), 2
    {
      PairsOfNames(nodes, a, b);
      ok := SetState(a, b, cs);
    }

    /** The same from one named node. */
    method SetFromOne(a: string, n2: string, cs: ConnState) returns (ok: bool)
      requires Names(nodes) && a != ANY
      modifies this
      ensures ok <==> Known(nodes, PairsFrom(nodes, a, n2))
      ensures ok ==> Abs() == SetPairs(old(Abs()), PairsFrom(nodes, a, n2), cs)
      decreases Wildcards(a, n2), 2
    {
      ok := SetState(a, n2, cs);
    }

    method SetFromAny(n2: string, cs: ConnState) returns (ok: bool)
      requires Names(nodes)
      modifies this
      ensures ok <==> Known(nodes, Pairs(nodes, ANY, n2))
      ensures ok ==> Abs() == SetPairs(old(Abs()), Pairs(nodes, ANY, n2), cs)
      decreases Wildcards(ANY, n2), 0
    {
      for i := 0 to |nodes|
        invariant Known(nodes, PairsFromEach(nodes, Others(nodes[..i], n2), n2))
        invariant Abs() == SetPairs(old(Abs()), PairsFromEach(nodes, Others(nodes[..i], n2), n2), cs)
      {
        OthersPrefix(nodes, i, n2);
        ghost var before := Others(nodes[..i], n2);
        if nodes[i] != n2 {
          ok := SetFromOne(nodes[i], n2, cs);
          if !ok {
            UnknownStays(nodes, nodes[i], n2);
            return;
          }
          FromOneMore(nodes, old(Abs()), before, nodes[i], n2, cs);
        } else {
          assert before + [] == before;
        }
      }
      assert nodes[..|nodes|] == nodes;
      ok := true;
    }

    method SetToAny(n1: string, cs: ConnState) returns (ok: bool)
      requires Names(nodes) && n1 != ANY
      modifies this
      ensures ok <==> Known(nodes, Pairs(nodes, n1, ANY))
      ensures ok ==> Abs() == SetPairs(old(Abs()), Pairs(nodes, n1, ANY), cs)
      decreases Wildcards(n1, ANY), 0
    {
      for i := 0 to |nodes|
        invariant Known(nodes, PairWith(n1, Others(nodes[..i], n1)))
        invariant Abs() == SetPairs(old(Abs()), PairWith(n1, Others(nodes[..i], n1)), cs)
      {
        OthersPrefix(nodes, i, n1);
        ghost var before := Others(nodes[..i], n1);
        if n1 != nodes[i] {
          ok := SetNames(n1, nodes[i], cs);
          if !ok {
            PairsAreMatches(nodes, n1, ANY, (n1, nodes[i]));
            return;
          }
          ToOneMore(nodes, old(Abs()), n1, before, nodes[i], cs);
        } else {
          assert before + [] == before;
        }
      }
      assert nodes[..|nodes|] == nodes;
      ok := true;
    }

    method LookupState(n1: string, n2: string) returns (r: Option<ConnState>)
      ensures r == Lookup(table, n1, n2)
    {
      var key := n1 + "," + n2;
      if key !in table { return None; }
      r := Some(table[key]);
    }
  }

  lemma UnknownStays(nodes: seq<string>, a: string, n2: string)
    requires Names(nodes) && a in nodes && a != n2 && !Known(nodes, Pairs(nodes, a, n2))
    ensures !Known(nodes, Pairs(nodes, ANY, n2))
  {
    var p :| p in Pairs(nodes, a, n2) && !(p.0 in nodes && p.1 in nodes);
    PairsAreMatches(nodes, a, n2, p);
    PairsAreMatches(nodes, ANY, n2, p);
  }

  /** No assertion fails exactly when nothing matches or every name given is a node's. */
  lemma AssertionsHoldIff(nodes: seq<string>, n1: string, n2: string)
    requires Names(nodes)
    ensures Known(nodes, Pairs(nodes, n1, n2))
            <==> ((n1 == ANY || n1 in nodes) && (n2 == ANY || n2 in nodes)) || Pairs(nodes, n1, n2) == []
  {
    var ps := Pairs(nodes, n1, n2);
    forall p | p in ps ensures Matches(nodes, n1, n2, p) {
      PairsAreMatches(nodes, n1, n2, p);
    }
    if ps != [] {
      assert ps[0] in ps;
    }
  }
}
