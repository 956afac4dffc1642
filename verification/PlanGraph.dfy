/** The ordering constraints drawn between the tasks of a plan (lib/cpphop/grapher.h): checks are
    contracted out, and of what is left every edge that another way implies is dropped. */
module PlanGraph {
  import opened Basics
  import opened Orders

  type Graph = map<nat, set<nat>>

  function Next(g: Graph, a: nat): set<nat> {
    if a in g then g[a] else {}
  }

  function Edges(g: Graph): set<(nat, nat)> {
    set a, b | a in g && b in g[a] :: (a, b)
  }

  /** A node leads to another along edges. */
  ghost predicate Leads(edges: set<(nat, nat)>, a: nat, b: nat) {
    exists p :: WalkFrom(edges, p, a, b)
  }

  // ----- Walks -----

  lemma LeadsEdge(edges: set<(nat, nat)>, a: nat, b: nat)
    requires (a, b) in edges
    ensures Leads(edges, a, b)
  {
    assert WalkFrom(edges, [a, b], a, b);
  }

  lemma LeadsTrans(edges: set<(nat, nat)>, a: nat, b: nat, c: nat)
    requires Leads(edges, a, b) && Leads(edges, b, c)
    ensures Leads(edges, a, c)
  {
    var p :| WalkFrom(edges, p, a, b);
    var q :| WalkFrom(edges, q, b, c);
    var r := p + q[1..];
    forall i | 0 <= i < |r| - 1
      ensures (r[i], r[i + 1]) in edges
    {
      if i < |p| - 1 {
        assert (p[i], p[i + 1]) in edges;
      } else {
        var j := i - (|p| - 1);
        assert r[i] == q[j] && r[i + 1] == q[j + 1];
      }
    }
    assert WalkFrom(edges, r, a, c);
  }

  /** A walk's first edge, and what is left of it. */
  lemma FirstEdge(edges: set<(nat, nat)>, p: seq<nat>, a: nat, b: nat)
    requires WalkFrom(edges, p, a, b)
    ensures (a, p[1]) in edges
    ensures p[1] == b || |p| > 2
    ensures |p| > 2 ==> WalkFrom(edges, p[1..], p[1], b)
  {
    assert (p[0], p[0 + 1]) in edges;
    if |p| > 2 {
      forall i | 0 <= i < |p[1..]| - 1
        ensures (p[1..][i], p[1..][i + 1]) in edges
      {
        assert (p[i + 1], p[i + 1 + 1]) in edges;
      }
    }
  }

  /** If every edge of one graph is a walk of another, so is every walk. */
  lemma {:induction false} WalksLead(f: set<(nat, nat)>, edges: set<(nat, nat)>, p: seq<nat>, a: nat, b: nat)
    requires WalkFrom(f, p, a, b) && forall e <- f :: Leads(edges, e.0, e.1)
    ensures Leads(edges, a, b)
    decreases |p|
  {
    FirstEdge(f, p, a, b);
    assert Leads(edges, (a, p[1]).0, (a, p[1]).1);
    if |p| > 2 {
      WalksLead(f, edges, p[1..], p[1], b);
      LeadsTrans(edges, a, p[1], b);
    }
  }

  lemma LeadsWithin(f: set<(nat, nat)>, edges: set<(nat, nat)>)
    requires forall e <- f :: Leads(edges, e.0, e.1)
    ensures forall a: nat, b: nat :: Leads(f, a, b) ==> Leads(edges, a, b)
  {
    forall a: nat, b: nat | Leads(f, a, b)
      ensures Leads(edges, a, b)
    {
      var p :| WalkFrom(f, p, a, b);
      WalksLead(f, edges, p, a, b);
    }
  }

  // ----- Acyclic graphs -----

  function Rank(topo: seq<nat>, x: nat): nat {
    if topo == [] || topo[0] == x then 0 else 1 + Rank(topo[1..], x)
  }

  /** An order of the nodes that every edge follows: the graph has no cycles. */
  ghost predicate Topological(edges: set<(nat, nat)>, topo: seq<nat>) {
    Distinct(topo) && forall e <- edges :: e.0 in topo && e.1 in topo && Rank(topo, e.0) < Rank(topo, e.1)
  }

  lemma {:induction false} WalkClimbs(edges: set<(nat, nat)>, topo: seq<nat>, p: seq<nat>, a: nat, b: nat)
    requires Topological(edges, topo) && WalkFrom(edges, p, a, b)
    ensures Rank(topo, a) < Rank(topo, b)
    decreases |p|
  {
    FirstEdge(edges, p, a, b);
    if |p| > 2 {
      WalkClimbs(edges, topo, p[1..], p[1], b);
    }
  }

  lemma LeadsClimbs(edges: set<(nat, nat)>, topo: seq<nat>, a: nat, b: nat)
    requires Topological(edges, topo) && Leads(edges, a, b)
    ensures Rank(topo, a) < Rank(topo, b)
  {
    var p :| WalkFrom(edges, p, a, b);
    WalkClimbs(edges, topo, p, a, b);
  }

  // ----- Contracting -----

  /** The edge to `b` from `a` replaced by edges to whatever follows `b`. */
  function Bypassed(g: Graph, a: nat, b: nat): Graph
    requires a in g
  {
    g[a := g[a] - {b} + (Next(g, b) - {a})]
  }

  lemma BypassedEdges(g: Graph, topo: seq<nat>, a: nat, b: nat)
    requires a in g && b in g[a] && Topological(Edges(g), topo)
    ensures Topological(Edges(Bypassed(g, a, b)), topo)
    ensures forall x: nat, y: nat :: (x, y) in Edges(Bypassed(g, a, b)) <==>
        ((x, y) in Edges(g) && (x, y) != (a, b)) || (x == a && (b, y) in Edges(g))
  {
    var h := Bypassed(g, a, b);
    assert (a, b) in Edges(g);
    forall y: nat | (b, y) in Edges(g)
      ensures y != a && y != b
    {
      assert Rank(topo, (a, b).0) < Rank(topo, (b, y).0) < Rank(topo, (b, y).1);
    }
    forall x: nat, y: nat
      ensures (x, y) in Edges(h) <==> ((x, y) in Edges(g) && (x, y) != (a, b)) || (x == a && (b, y) in Edges(g))
    {
      assert y in Next(g, b) <==> (b, y) in Edges(g);
    }
    forall e | e in Edges(h)
      ensures e.0 in topo && e.1 in topo && Rank(topo, e.0) < Rank(topo, e.1)
    {
      if e !in Edges(g) {
        assert (b, e.1) in Edges(g) && e == (a, e.1);
      }
    }
  }

  lemma {:induction false} BypassWalk(g: Graph, topo: seq<nat>, a: nat, b: nat, p: seq<nat>, x: nat, y: nat)
    requires a in g && b in g[a] && Topological(Edges(g), topo) && y != b && WalkFrom(Edges(g), p, x, y)
    ensures Leads(Edges(Bypassed(g, a, b)), x, y)
    decreases |p|
  {
    hide Edges, Bypassed, Topological;
    var h := Edges(Bypassed(g, a, b));
    BypassedEdges(g, topo, a, b);
    FirstEdge(Edges(g), p, x, y);
    var z := p[1];
    if (x, z) != (a, b) {
      LeadsEdge(h, x, z);
      if |p| > 2 {
        BypassWalk(g, topo, a, b, p[1..], z, y);
        LeadsTrans(h, x, z, y);
      }
    } else {
      FirstEdge(Edges(g), p[1..], z, y);
      var w := p[1..][1];
      LeadsEdge(h, x, w);
      if |p[1..]| > 2 {
        BypassWalk(g, topo, a, b, p[1..][1..], w, y);
        LeadsTrans(h, x, w, y);
      }
    }
  }

  /** Going around `b` changes what leads to `b` only. */
  lemma BypassKeeps(g: Graph, topo: seq<nat>, a: nat, b: nat)
    requires a in g && b in g[a] && Topological(Edges(g), topo)
    ensures forall x: nat, y: nat :: y != b ==> (Leads(Edges(Bypassed(g, a, b)), x, y) <==> Leads(Edges(g), x, y))
  {
    hide Edges, Bypassed, Topological;
    var f, h := Edges(g), Edges(Bypassed(g, a, b));
    BypassedEdges(g, topo, a, b);
    InEdges(g, a, b);
    forall e | e in h
      ensures Leads(f, e.0, e.1)
    {
      assert e == (e.0, e.1);
      if e in f {
        LeadsEdge(f, e.0, e.1);
      } else {
        LeadsEdge(f, a, b);
        LeadsEdge(f, b, e.1);
        LeadsTrans(f, a, b, e.1);
      }
    }
    LeadsWithin(h, f);
    forall x: nat, y: nat | y != b && Leads(f, x, y)
      ensures Leads(h, x, y)
    {
      var p :| WalkFrom(f, p, x, y);
      BypassWalk(g, topo, a, b, p, x, y);
    }
  }

  lemma InEdges(g: Graph, a: nat, b: nat)
    ensures (a, b) in Edges(g) <==> b in Next(g, a)
  {
  }

  // ----- Why contracting ends -----

  function Pow2(n: nat): nat {
    if n == 0 then 1 else 2 * Pow2(n - 1)
  }

  /** A set of nodes as a number, a node earlier in the order weighing more than all later ones. */
  function Code(s: set<nat>, topo: seq<nat>): nat {
    if topo == [] then 0 else (if topo[0] in s then Pow2(|topo| - 1) else 0) + Code(s, topo[1..])
  }

  lemma {:induction false} CodeBound(s: set<nat>, topo: seq<nat>)
    ensures Code(s, topo) < Pow2(|topo|)
  {
    if topo != [] {
      CodeBound(s, topo[1..]);
    }
  }

  /** Taking `b` out for later nodes makes the number smaller. */
  lemma {:induction false} CodeDrops(s: set<nat>, s': set<nat>, topo: seq<nat>, b: nat)
    requires Distinct(topo) && b in topo && b in s && b !in s' && s - {b} <= s'
    requires forall c <- s' - s :: Rank(topo, c) > Rank(topo, b)
    ensures Code(s', topo) < Code(s, topo)
  {
    if topo[0] == b {
      CodeBound(s', topo[1..]);
    } else {
      forall c | c in s' - s
        ensures c != topo[0] && Rank(topo[1..], c) > Rank(topo[1..], b)
      {
      }
      assert topo[0] !in s' - s;
      assert topo[0] in s ==> topo[0] in s - {b};
      CodeDrops(s, s', topo[1..], b);
    }
  }

  /** The edges into checks still to contract, over all nodes. */
  function Left(g: Graph, checks: set<nat>, nodes: seq<nat>, topo: seq<nat>): nat {
    if nodes == [] then 0 else Code(Next(g, nodes[0]) * checks, topo) + Left(g, checks, nodes[1..], topo)
  }

  lemma {:induction false} LeftDrops(g: Graph, h: Graph, checks: set<nat>, nodes: seq<nat>, topo: seq<nat>, a: nat)
    requires Distinct(nodes) && Code(Next(h, a) * checks, topo) < Code(Next(g, a) * checks, topo)
    requires forall x <- nodes :: x != a ==> Next(h, x) == Next(g, x)
    ensures Left(h, checks, nodes, topo) <= Left(g, checks, nodes, topo)
    ensures a in nodes ==> Left(h, checks, nodes, topo) < Left(g, checks, nodes, topo)
  {
    if nodes != [] {
      LeftDrops(g, h, checks, nodes[1..], topo, a);
    }
  }

  /** Going around a check leaves less to contract. */
  lemma BypassDrops(g: Graph, checks: set<nat>, topo: seq<nat>, a: nat, b: nat)
    requires a in g && b in g[a] && b in checks && Topological(Edges(g), topo)
    ensures Left(Bypassed(g, a, b), checks, topo, topo) < Left(g, checks, topo, topo)
  {
    var h := Bypassed(g, a, b);
    assert (a, b) in Edges(g);
    forall c | c in Next(g, b)
      ensures Rank(topo, c) > Rank(topo, b)
    {
      assert (b, c) in Edges(g);
      assert Rank(topo, (b, c).0) < Rank(topo, (b, c).1);
    }
    assert b !in Next(g, b);
    CodeDrops(Next(g, a) * checks, Next(h, a) * checks, topo, b);
    LeftDrops(g, h, checks, topo, topo, a);
  }

  /** One node leads to another as before, unless that other is a check. */
  ghost predicate SameOrder(g: Graph, h: Graph, checks: set<nat>) {
    forall x: nat, y: nat :: y !in checks ==> (Leads(Edges(h), x, y) <==> Leads(Edges(g), x, y))
  }

  /** The checks a node's edges go to, as they were listed, each gone around. */
  method ContractNode(g: Graph, checks: set<nat>, a: nat, ghost topo: seq<nat>) returns (h: Graph, changed: bool)
    requires Topological(Edges(g), topo) && a in g
    ensures Topological(Edges(h), topo) && SameOrder(g, h, checks) && h.Keys == g.Keys
    ensures if changed then Left(h, checks, topo, topo) < Left(g, checks, topo, topo) else h == g && g[a] * checks == {}
  {
    hide Topological, Edges, Leads, Left, Rank;
    h, changed := g, false;
    var bs := g[a];
    while bs != {}
      invariant Topological(Edges(h), topo) && SameOrder(g, h, checks) && h.Keys == g.Keys
      invariant bs <= h[a]
      invariant if changed then Left(h, checks, topo, topo) < Left(g, checks, topo, topo)
          else h == g && g[a] * checks <= bs
      decreases bs
    {
      var b :| b in bs;
      bs := bs - {b};
      if b in checks {
        BypassKeeps(h, topo, a, b);
        BypassedEdges(h, topo, a, b);
        BypassDrops(h, checks, topo, a, b);
        h, changed := Bypassed(h, a, b), true;
      }
    }
    assert !changed ==> g[a] * checks == {};
  }

  /** Rounds over all the nodes, until one contracts nothing. */
  method Contract(after: Graph, checks: set<nat>, ghost topo: seq<nat>) returns (g: Graph)
    requires Topological(Edges(after), topo)
    ensures Topological(Edges(g), topo) && SameOrder(after, g, checks)
    ensures g.Keys == after.Keys && forall a <- g :: g[a] * checks == {}
  {
    hide Topological, Edges, Leads, Left, Rank;
    g := after;
    var contracted := true;
    while contracted
      invariant Topological(Edges(g), topo) && SameOrder(after, g, checks) && g.Keys == after.Keys
      invariant !contracted ==> forall a <- g :: g[a] * checks == {}
      decreases contracted, Left(g, checks, topo, topo)
    {
      contracted := false;
      ghost var was := g;
      var todo := g.Keys;
      while todo != {}
        invariant Topological(Edges(g), topo) && SameOrder(after, g, checks) && g.Keys == after.Keys && todo <= g.Keys
        invariant if contracted then Left(g, checks, topo, topo) < Left(was, checks, topo, topo)
                  else g == was && forall a <- g :: a !in todo ==> g[a] * checks == {}
        decreases todo
      {
        var a :| a in todo;
        todo := todo - {a};
        var changed;
        g, changed := ContractNode(g, checks, a, topo);
        contracted := contracted || changed;
      }
    }
  }

  // ----- What is visible -----

  /** The edges between visible nodes. */
  function Restricted(g: Graph, visible: set<nat>): Graph {
    map a | a in g && a in visible :: g[a] * visible
  }

  lemma {:induction false} RestrictedWalk(g: Graph, visible: set<nat>, p: seq<nat>, x: nat, y: nat)
    requires (forall a <- g :: g[a] <= visible) && x in visible && WalkFrom(Edges(g), p, x, y)
    ensures WalkFrom(Edges(Restricted(g, visible)), p, x, y)
    decreases |p|
  {
    hide Restricted;
    var h := Edges(Restricted(g, visible));
    FirstEdge(Edges(g), p, x, y);
    RestrictedEdge(g, visible, x, p[1]);
    if |p| > 2 {
      RestrictedWalk(g, visible, p[1..], p[1], y);
      forall i | 0 <= i < |p| - 1
        ensures (p[i], p[i + 1]) in h
      {
        if i > 0 {
          assert (p[1..][i - 1], p[1..][i - 1 + 1]) in h;
        }
      }
    } else {
      assert p == [x, y];
    }
  }

  lemma RestrictedEdge(g: Graph, visible: set<nat>, x: nat, y: nat)
    ensures (x, y) in Edges(Restricted(g, visible)) <==> (x, y) in Edges(g) && x in visible && y in visible
  {
  }

  /** With only visible nodes to go to, nothing visible is lost. */
  lemma RestrictedKeeps(g: Graph, visible: set<nat>, topo: seq<nat>)
    requires (forall a <- g :: g[a] <= visible) && Topological(Edges(g), topo)
    ensures Topological(Edges(Restricted(g, visible)), topo)
    ensures forall x: nat, y: nat :: x in visible ==>
      (Leads(Edges(Restricted(g, visible)), x, y) <==> Leads(Edges(g), x, y))
  {
    hide Restricted, Edges, Rank;
    var f, h := Edges(g), Edges(Restricted(g, visible));
    forall e | e in h
      ensures e in f && Leads(f, e.0, e.1)
    {
      RestrictedEdge(g, visible, e.0, e.1);
      assert e == (e.0, e.1);
      LeadsEdge(f, e.0, e.1);
    }
    LeadsWithin(h, f);
    forall x: nat, y: nat | x in visible && Leads(f, x, y)
      ensures Leads(h, x, y)
    {
      var p :| WalkFrom(f, p, x, y);
      RestrictedWalk(g, visible, p, x, y);
    }
  }

  // ----- Dropping what another way implies -----

  /** Another successor of `a` leads to `b`. */
  ghost predicate Redundant(edges: set<(nat, nat)>, a: nat, b: nat) {
    exists c :: (a, c) in edges && c != b && Leads(edges, c, b)
  }

  ghost predicate FromStart(edges: set<(nat, nat)>, a: nat, b: nat, x: nat) {
    exists c :: (a, c) in edges && c != b && (c == x || Leads(edges, c, x))
  }

  lemma FromStartNext(edges: set<(nat, nat)>, a: nat, b: nat, x: nat, y: nat)
    requires FromStart(edges, a, b, x) && (x, y) in edges
    ensures FromStart(edges, a, b, y)
  {
    var c :| (a, c) in edges && c != b && (c == x || Leads(edges, c, x));
    LeadsEdge(edges, x, y);
    if c != x {
      LeadsTrans(edges, c, x, y);
    }
    assert Leads(edges, c, y);
  }

  /** A set closed under edges holds every walk from it. */
  lemma {:induction false} ClosedWalk(edges: set<(nat, nat)>, seen: set<nat>, p: seq<nat>, x: nat, y: nat)
    requires WalkFrom(edges, p, x, y) && x in seen && forall e <- edges :: e.0 in seen ==> e.1 in seen
    ensures y in seen
    decreases |p|
  {
    FirstEdge(edges, p, x, y);
    assert (x, p[1]).1 in seen;
    if |p| > 2 {
      ClosedWalk(edges, seen, p[1..], p[1], y);
    }
  }

  /** A list with a set's nodes added at its end. */
  method Push(todo: seq<nat>, s: set<nat>) returns (r: seq<nat>)
    ensures forall x :: x in r <==> x in todo || x in s
  {
    r := todo;
    var rest := s;
    while rest != {}
      invariant rest <= s && forall x :: x in r <==> x in todo || x in s - rest
      decreases rest
    {
      var x :| x in rest;
      rest := rest - {x};
      r := r + [x];
    }
  }

  /** How far a search from the other successors of `a` has come. */
  ghost predicate Explored(g: Graph, a: nat, b: nat, nodes: set<nat>, seen: set<nat>, todo: seq<nat>) {
    && (forall x :: x in todo || x in seen ==> x in nodes && FromStart(Edges(g), a, b, x))
    && b !in seen && (forall c <- Next(g, a) :: c != b ==> c in todo || c in seen)
    && forall x <- seen :: forall y <- Next(g, x) :: y in todo || y in seen
  }

  lemma ExploredStart(g: Graph, a: nat, b: nat, nodes: set<nat>, todo: seq<nat>)
    requires (forall e <- Edges(g) :: e.0 in nodes && e.1 in nodes)
    requires forall x :: x in todo <==> x in Next(g, a) && x != b
    ensures Explored(g, a, b, nodes, {}, todo)
  {
    hide Leads, Edges;
    forall x | x in todo
      ensures x in nodes && FromStart(Edges(g), a, b, x)
    {
      InEdges(g, a, x);
      assert (a, x).1 in nodes;
    }
  }

  lemma ExploredMore(g: Graph, a: nat, b: nat, nodes: set<nat>, seen: set<nat>, rest: seq<nat>, x: nat, todo: seq<nat>)
    requires (forall e <- Edges(g) :: e.0 in nodes && e.1 in nodes) && Explored(g, a, b, nodes, seen, rest + [x])
    requires x != b
    requires forall y :: y in todo <==> y in rest || y in Next(g, x)
    ensures Explored(g, a, b, nodes, seen + {x}, todo) && x in nodes
  {
    hide Leads, Edges, FromStart;
    assert x in rest + [x];
    assert forall y :: y in rest + [x] <==> y in rest || y == x;
    forall y | y in Next(g, x)
      ensures y in nodes && FromStart(Edges(g), a, b, y)
    {
      InEdges(g, x, y);
      assert (x, y).1 in nodes;
      FromStartNext(Edges(g), a, b, x, y);
    }
  }

  lemma ExploredAgain(g: Graph, a: nat, b: nat, nodes: set<nat>, seen: set<nat>, rest: seq<nat>, x: nat)
    requires Explored(g, a, b, nodes, seen, rest + [x])
    ensures x in nodes && FromStart(Edges(g), a, b, x)
    ensures x in seen ==> Explored(g, a, b, nodes, seen, rest)
  {
    hide FromStart, Edges;
    assert x in rest + [x];
    assert forall y :: y in rest + [x] <==> y in rest || y == x;
  }

  /** Is there another way from `a` to `b` than the edge between them? */
  method ReachableWithout(g: Graph, a: nat, b: nat, ghost nodes: set<nat>) returns (yes: bool)
    requires forall e <- Edges(g) :: e.0 in nodes && e.1 in nodes
    ensures yes <==> Redundant(Edges(g), a, b)
  {
    hide Leads, Edges, Explored;
    var todo := Push([], Next(g, a) - {b});
    var seen: set<nat> := {};
    ExploredStart(g, a, b, nodes, todo);
    while todo != []
      invariant Explored(g, a, b, nodes, seen, todo)
      decreases |nodes - seen|, |todo|
    {
      var x := todo[|todo| - 1];
      var rest := todo[..|todo| - 1];
      assert todo == rest + [x];
      ExploredAgain(g, a, b, nodes, seen, rest, x);
      if x == b {
        return true;
      }
      if x in seen {
        todo := rest;
      } else {
        Grown(nodes, seen, x);
        todo := Push(rest, Next(g, x));
        ExploredMore(g, a, b, nodes, seen, rest, x, todo);
        seen := seen + {x};
      }
    }
    NoOtherWay(g, a, b, nodes, seen);
    return false;
  }

  lemma Grown(nodes: set<nat>, seen: set<nat>, x: nat)
    requires x in nodes && x !in seen
    ensures |nodes - (seen + {x})| < |nodes - seen|
  {
    assert nodes - seen == (nodes - (seen + {x})) + {x};
  }

  lemma NoOtherWay(g: Graph, a: nat, b: nat, nodes: set<nat>, seen: set<nat>)
    requires Explored(g, a, b, nodes, seen, [])
    ensures !Redundant(Edges(g), a, b)
  {
    hide Edges, FromStart;
    var edges := Edges(g);
    forall e | e in edges && e.0 in seen
      ensures e.1 in seen
    {
      assert e == (e.0, e.1);
      InEdges(g, e.0, e.1);
    }
    forall c | (a, c) in edges && c != b
      ensures !Leads(edges, c, b)
    {
      InEdges(g, a, c);
      if p :| WalkFrom(edges, p, c, b) {
        ClosedWalk(edges, seen, p, c, b);
      }
    }
  }

  /** Every edge tested against the whole graph, and the redundant ones dropped at once. */
  method Reduce(g: Graph, ghost nodes: set<nat>) returns (kept: set<(nat, nat)>)
    requires forall e <- Edges(g) :: e.0 in nodes && e.1 in nodes
    ensures forall a: nat, b: nat :: (a, b) in kept <==> (a, b) in Edges(g) && !Redundant(Edges(g), a, b)
  {
    hide Redundant;
    kept := {};
    var todo := Edges(g);
    while todo != {}
      invariant todo <= Edges(g)
      invariant forall a: nat, b: nat :: (a, b) in kept <==> (a, b) in Edges(g) - todo && !Redundant(Edges(g), a, b)
      decreases todo
    {
      var e :| e in todo;
      todo := todo - {e};
      var other := ReachableWithout(g, e.0, e.1, nodes);
      if !other {
        kept := kept + {e};
      }
    }
  }

  /** What is kept leads wherever the whole graph did. */
  lemma {:induction false} ReducedLeads(edges: set<(nat, nat)>, kept: set<(nat, nat)>, topo: seq<nat>, x: nat, y: nat)
    requires Topological(edges, topo) && Leads(edges, x, y)
    requires forall a: nat, b: nat :: (a, b) in kept <==> (a, b) in edges && !Redundant(edges, a, b)
    ensures Leads(kept, x, y)
    decreases Rank(topo, y) - Rank(topo, x)
  {
    hide Topological, Leads, Redundant;
    LeadsClimbs(edges, topo, x, y);
    var z := Second(edges, x, y);
    if z == y {
      if (x, y) in kept {
        LeadsEdge(kept, x, y);
      } else {
        var c := OtherWay(edges, x, y);
        Between(edges, kept, topo, x, c, y);
      }
    } else {
      Between(edges, kept, topo, x, z, y);
    }
  }

  /** Both halves of a walk are shorter. */
  lemma Between(edges: set<(nat, nat)>, kept: set<(nat, nat)>, topo: seq<nat>, x: nat, c: nat, y: nat)
    requires Topological(edges, topo) && (x, c) in edges && Leads(edges, c, y) && Leads(edges, x, y)
    requires forall a: nat, b: nat :: (a, b) in kept <==> (a, b) in edges && !Redundant(edges, a, b)
    ensures Leads(kept, x, y)
    decreases Rank(topo, y) - Rank(topo, x), 0
  {
    hide Topological, Leads, Redundant;
    LeadsEdge(edges, x, c);
    LeadsClimbs(edges, topo, x, c);
    LeadsClimbs(edges, topo, c, y);
    ReducedLeads(edges, kept, topo, x, c);
    ReducedLeads(edges, kept, topo, c, y);
    LeadsTrans(kept, x, c, y);
  }

  lemma Second(edges: set<(nat, nat)>, x: nat, y: nat) returns (z: nat)
    requires Leads(edges, x, y)
    ensures (x, z) in edges && (z == y || Leads(edges, z, y))
  {
    var p :| WalkFrom(edges, p, x, y);
    FirstEdge(edges, p, x, y);
    z := p[1];
    if |p| > 2 {
      assert WalkFrom(edges, p[1..], z, y);
    } else {
      assert z == y;
    }
  }

  lemma OtherWay(edges: set<(nat, nat)>, x: nat, y: nat) returns (c: nat)
    requires Redundant(edges, x, y)
    ensures (x, c) in edges && Leads(edges, c, y)
  {
    c :| (x, c) in edges && c != y && Leads(edges, c, y);
  }

  /** No edge kept can be dropped: without it, it is no longer implied. */
  lemma NothingToDrop(edges: set<(nat, nat)>, kept: set<(nat, nat)>, a: nat, b: nat)
    requires forall x: nat, y: nat :: (x, y) in kept <==> (x, y) in edges && !Redundant(edges, x, y)
    requires (a, b) in kept
    ensures !Leads(kept - {(a, b)}, a, b)
  {
    hide Leads, Redundant;
    var less := kept - {(a, b)};
    if Leads(less, a, b) {
      var c := Second(less, a, b);
      forall e | e in less
        ensures Leads(edges, e.0, e.1)
      {
        assert e == (e.0, e.1);
        LeadsEdge(edges, e.0, e.1);
      }
      LeadsWithin(less, edges);
      IsRedundant(edges, a, c, b);
    }
  }

  lemma IsRedundant(edges: set<(nat, nat)>, a: nat, c: nat, b: nat)
    requires (a, c) in edges && c != b && Leads(edges, c, b)
    ensures Redundant(edges, a, b)
  {
  }

  // ----- All of it -----

  /** The ordering edges drawn: among the nodes that are not checks, they say exactly what the
      network's edges say, and none of them is implied by the others. */
  method Orderings(after: Graph, checks: set<nat>, visible: set<nat>, ghost topo: seq<nat>)
      returns (kept: set<(nat, nat)>)
    requires Topological(Edges(after), topo) && visible !! checks && forall a <- after :: after[a] <= visible + checks
    ensures forall e <- kept :: e.0 in visible && e.1 in visible
    ensures forall x: nat, y: nat :: x in visible && y in visible ==> (Leads(kept, x, y) <==> Leads(Edges(after), x, y))
    ensures forall e <- kept :: !Leads(kept - {e}, e.0, e.1)
  {
    hide Leads, Redundant, Rank, Edges, Topological;
    var g := Contract(after, checks, topo);
    TargetsVisible(after, g, checks, visible, topo);
    var ord := Restricted(g, visible);
    RestrictedKeeps(g, visible, topo);
    RestrictedEnds(g, visible);
    kept := Reduce(ord, visible);
    KeptMeans(Edges(ord), kept, topo);
    forall e | e in kept
      ensures e.0 in visible && e.1 in visible && !Leads(kept - {e}, e.0, e.1)
    {
      assert e == (e.0, e.1);
      NothingToDrop(Edges(ord), kept, e.0, e.1);
    }
  }

  lemma RestrictedEnds(g: Graph, visible: set<nat>)
    ensures forall e <- Edges(Restricted(g, visible)) :: e.0 in visible && e.1 in visible
  {
  }

  lemma KeptMeans(edges: set<(nat, nat)>, kept: set<(nat, nat)>, topo: seq<nat>)
    requires Topological(edges, topo)
    requires forall a: nat, b: nat :: (a, b) in kept <==> (a, b) in edges && !Redundant(edges, a, b)
    ensures forall x: nat, y: nat :: Leads(kept, x, y) <==> Leads(edges, x, y)
  {
    hide Topological, Leads, Redundant;
    forall e | e in kept
      ensures Leads(edges, e.0, e.1)
    {
      assert e == (e.0, e.1);
      LeadsEdge(edges, e.0, e.1);
    }
    LeadsWithin(kept, edges);
    forall x: nat, y: nat | Leads(edges, x, y)
      ensures Leads(kept, x, y)
    {
      ReducedLeads(edges, kept, topo, x, y);
    }
  }

  /** Contracting adds no node to go to. */
  lemma TargetsVisible(after: Graph, g: Graph, checks: set<nat>, visible: set<nat>, topo: seq<nat>)
    requires SameOrder(after, g, checks) && (forall a <- g :: g[a] * checks == {})
    requires forall a <- after :: after[a] <= visible + checks
    ensures forall a <- g :: g[a] <= visible
  {
    forall a, b | a in g && b in g[a]
      ensures b in visible
    {
      assert b !in g[a] * checks;
      assert (a, b) in Edges(g);
      LeadsEdge(Edges(g), a, b);
      assert Leads(Edges(after), a, b);
      LastTarget(after, a, b);
    }
  }

  lemma LastTarget(g: Graph, a: nat, b: nat)
    requires Leads(Edges(g), a, b)
    ensures exists x :: x in g && b in g[x]
  {
    var p :| WalkFrom(Edges(g), p, a, b);
    assert (p[|p| - 2], p[|p| - 2 + 1]) in Edges(g);
  }
}
