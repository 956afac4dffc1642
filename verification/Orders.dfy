/** What decomposing a task does to the order of a network (lib/typedefs.h, `MethodDef::ground`
    and `apply_binding`). */
module Orders {
  import opened Basics
  import opened Networks
  import opened Progression
  import opened Exchange
  import opened Completeness

  /** A walk along edges. */
  ghost predicate Walk(edges: set<(nat, nat)>, p: seq<nat>) {
    forall i :: 0 <= i < |p| - 1 ==> (p[i], p[i + 1]) in edges
  }

  ghost predicate WalkFrom(edges: set<(nat, nat)>, p: seq<nat>, a: nat, b: nat) {
    |p| >= 2 && p[0] == a && p[|p| - 1] == b && Walk(edges, p)
  }

  /** `a` comes before `b`, directly or through others. */
  ghost predicate Before(n: Net, a: nat, b: nat) {
    exists p :: WalkFrom(n.edges, p, a, b)
  }

  ghost predicate Acyclic(n: Net) {
    forall a: nat :: !Before(n, a, a)
  }

  lemma {:induction false} OldWalk(mode: Mode, n: Net, t: nat, m: Body, b: Binding, p: seq<nat>, i: nat)
    requires Valid(n) && t in n.tasks && Walk(Ground(mode, n, t, m, b).edges, p) && i < |p| && p[0] < n.next
    ensures p[i] < n.next && (i > 0 ==> (p[i - 1], p[i]) in n.edges)
  {
    if i > 0 {
      OldWalk(mode, n, t, m, b, p, i - 1);
      assert (p[i - 1], p[i - 1 + 1]) in Ground(mode, n, t, m, b).edges;
      GroundEdge(mode, n, t, m, b, p[i - 1], p[i]);
    }
  }

  lemma {:induction false} NewWalk(mode: Mode, n: Net, t: nat, m: Body, b: Binding, p: seq<nat>, i: nat)
    requires Valid(n) && t in n.tasks && Walk(Ground(mode, n, t, m, b).edges, p) && i < |p| && p[|p| - 1] >= n.next
    ensures p[i] >= n.next
  {
    if p[i] < n.next {
      assert Walk(Ground(mode, n, t, m, b).edges, p[i..]) by {
        forall j | 0 <= j < |p[i..]| - 1
          ensures (p[i..][j], p[i..][j + 1]) in Ground(mode, n, t, m, b).edges
        {
          assert (p[i + j], p[i + j + 1]) in Ground(mode, n, t, m, b).edges;
        }
      }
      OldWalk(mode, n, t, m, b, p[i..], |p| - 1 - i);
    }
  }

  lemma {:induction false} ClimbingWalk(mode: Mode, n: Net, t: nat, m: Body, b: Binding, rank: seq<nat>, p: seq<nat>,
        i: nat)
    requires Valid(n) && t in n.tasks && Climbs(m, rank) && 0 < i < |p|
    requires Walk(Ground(mode, n, t, m, b).edges, p)
    requires forall j :: 0 <= j < |p| ==> n.next <= p[j] < n.next + |m.subs|
    ensures rank[p[0] - n.next] < rank[p[i] - n.next]
  {
    assert (p[i - 1], p[i - 1 + 1]) in Ground(mode, n, t, m, b).edges;
    GroundEdge(mode, n, t, m, b, p[i - 1], p[i]);
    if i > 1 {
      ClimbingWalk(mode, n, t, m, b, rank, p, i - 1);
    }
  }

  /** Decomposing a free task leaves the order of all the other tasks as it was. */
  lemma OrderKept(mode: Mode, n: Net, t: nat, m: Body, bind: Binding, a: nat, b: nat)
    requires Valid(n) && Free(n, t) && a in n.tasks && b in n.tasks && a != t && b != t
    ensures Before(Ground(mode, n, t, m, bind), a, b) <==> Before(n, a, b)
  {
    var g := Ground(mode, n, t, m, bind);
    if Before(g, a, b) {
      var p :| WalkFrom(g.edges, p, a, b);
      forall i | 0 <= i < |p| - 1
        ensures (p[i], p[i + 1]) in n.edges
      {
        OldWalk(mode, n, t, m, bind, p, i + 1);
      }
      assert WalkFrom(n.edges, p, a, b);
    }
    if Before(n, a, b) {
      var p :| WalkFrom(n.edges, p, a, b);
      forall i | 0 <= i < |p| - 1
        ensures (p[i], p[i + 1]) in g.edges
      {
        assert (p[i], p[i + 1]).0 in n.tasks;
        assert i > 0 ==> (p[i - 1], p[i - 1 + 1]) in n.edges;
        GroundEdge(mode, n, t, m, bind, p[i], p[i + 1]);
      }
      assert WalkFrom(g.edges, p, a, b);
    }
  }

  /** No old task comes before a new one. */
  lemma NewStayFirst(mode: Mode, n: Net, t: nat, m: Body, bind: Binding, a: nat, b: nat)
    requires Valid(n) && t in n.tasks && a < n.next && b >= n.next
    ensures !Before(Ground(mode, n, t, m, bind), a, b)
  {
    var g := Ground(mode, n, t, m, bind);
    forall p | WalkFrom(g.edges, p, a, b)
      ensures false
    {
      OldWalk(mode, n, t, m, bind, p, |p| - 1);
    }
  }

  /** Grounding keeps a network acyclic. */
  lemma GroundAcyclic(mode: Mode, n: Net, t: nat, m: Body, bind: Binding, rank: seq<nat>)
    requires Valid(n) && t in n.tasks && Acyclic(n) && Climbs(m, rank)
    ensures Acyclic(Ground(mode, n, t, m, bind))
  {
    var g := Ground(mode, n, t, m, bind);
    GroundValid(mode, n, t, m, bind);
    forall a: nat, p | WalkFrom(g.edges, p, a, a)
      ensures false
    {
      if a < n.next {
        forall i | 0 <= i < |p| - 1
          ensures (p[i], p[i + 1]) in n.edges
        {
          OldWalk(mode, n, t, m, bind, p, i + 1);
        }
        assert WalkFrom(n.edges, p, a, a);
        assert Before(n, a, a);
      } else {
        forall j | 0 <= j < |p|
          ensures n.next <= p[j] < n.next + |m.subs|
        {
          NewWalk(mode, n, t, m, bind, p, j);
          InWalk(g, p, j);
        }
        ClimbingWalk(mode, n, t, m, bind, rank, p, |p| - 1);
      }
    }
  }

  lemma InWalk(n: Net, p: seq<nat>, j: nat)
    requires Valid(n) && Walk(n.edges, p) && |p| >= 2 && j < |p|
    ensures p[j] in n.tasks
  {
    if j + 1 < |p| {
      assert (p[j], p[j + 1]).0 in n.tasks;
    } else {
      assert (p[j - 1], p[j - 1 + 1]).1 in n.tasks;
    }
  }

  lemma BeforeCons(n: Net, a: nat, b: nat, c: nat)
    requires (a, b) in n.edges && Before(n, b, c)
    ensures Before(n, a, c)
  {
    var p :| WalkFrom(n.edges, p, b, c);
    assert WalkFrom(n.edges, [a] + p, a, c);
  }

  lemma LastBefore(mode: Mode, n: Net, t: nat, m: Body, bind: Binding, i: nat, o: nat)
    requires Valid(n) && t in n.tasks && o != t && (t, o) in n.edges && i < |m.subs| && Last(m, i)
    ensures Before(Ground(mode, n, t, m, bind), n.next + i, o)
  {
    assert (t, o).1 in n.tasks;
    GroundEdge(mode, n, t, m, bind, n.next + i, o);
    assert WalkFrom(Ground(mode, n, t, m, bind).edges, [n.next + i, o], n.next + i, o);
  }

  lemma NextSub(m: Body, rank: seq<nat>, i: nat) returns (k: nat)
    requires LabelsOk(m) && Climbs(m, rank) && i < |m.subs| && !Last(m, i)
    ensures k < |m.subs| && Ordered(m, i, k) && rank[i] < rank[k] <= MaxRank(rank)
  {
    var l :| l in m.orderings[m.subs[i].name];
    k :| 0 <= k < |m.subs| && m.subs[k].name == l;
    MaxRankBounds(rank, k);
  }

  /** Every new subtask comes before every successor of the task it replaced. */
  lemma {:induction false} SubtasksBeforeSuccessors(mode: Mode, n: Net, t: nat, m: Body, bind: Binding,
        rank: seq<nat>, i: nat, o: nat)
    requires Valid(n) && t in n.tasks && o != t && (t, o) in n.edges && LabelsOk(m) && Climbs(m, rank) && i < |m.subs|
    ensures Before(Ground(mode, n, t, m, bind), n.next + i, o)
    decreases MaxRank(rank) - rank[i]
  {
    if Last(m, i) {
      LastBefore(mode, n, t, m, bind, i, o);
    } else {
      var k := NextSub(m, rank, i);
      GroundEdge(mode, n, t, m, bind, n.next + i, n.next + k);
      SubtasksBeforeSuccessors(mode, n, t, m, bind, rank, k, o);
      BeforeCons(Ground(mode, n, t, m, bind), n.next + i, n.next + k, o);
    }
  }

  /** Carrying a free task out leaves the order of the others as it was. */
  lemma RemoveOrderKept(n: Net, t: nat, a: nat, b: nat)
    requires Valid(n) && Free(n, t) && a != t && b != t
    ensures Before(RemoveTask(n, t), a, b) <==> Before(n, a, b)
  {
    if Before(n, a, b) {
      var p :| WalkFrom(n.edges, p, a, b);
      forall i | 0 <= i < |p| - 1
        ensures (p[i], p[i + 1]) in RemoveTask(n, t).edges
      {
        assert i > 0 ==> (p[i - 1], p[i - 1 + 1]) in n.edges;
      }
      assert WalkFrom(RemoveTask(n, t).edges, p, a, b);
    }
    if Before(RemoveTask(n, t), a, b) {
      var p :| WalkFrom(RemoveTask(n, t).edges, p, a, b);
      assert WalkFrom(n.edges, p, a, b);
    }
  }
}
