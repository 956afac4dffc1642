/** Restricting a search to one unconstrained compound task loses no solution, in any
    precondition mode (lib/cpphop/cppMCTShop.h, `expansion` and `simulation`). */
module Completeness {
  import opened Basics
  import opened Networks
  import opened Progression
  import opened Exchange

  /** Method applicability does not depend on the state: running an action leaves every method
      the bindings it had. */
  ghost predicate SameBindings<S>(d: Domain<S>, s: S, s': S) {
    forall h <- d.methods, mi: nat, args, b: Binding :: mi < |d.methods[h]| ==>
      (b in d.methods[h][mi].bindings(s, args) <==> b in d.methods[h][mi].bindings(s', args))
  }

  ghost predicate StableBindings<S(!new)>(d: Domain<S>) {
    forall p: Point<S>, t, to :: CanAct(d, p, t, to) ==> SameBindings(d, p.state, to)
  }

  // ----- An action commutes with a decomposition -----

  lemma CommuteEdges<S>(d: Domain<S>, n: Net, t: nat, c: nat, m: Body, b: Binding)
    requires Valid(n) && Free(n, t) && Free(n, c) && t != c && n.tasks[t].head in d.actions
    ensures RemoveTask(Ground(d.mode, n, c, m, b), t).edges == Ground(d.mode, AfterAct(d, n, t), c, m, b).edges
  {
    AfterActShape(d, n, t);
    var g, h := RemoveTask(Ground(d.mode, n, c, m, b), t), Ground(d.mode, AfterAct(d, n, t), c, m, b);
    forall x: nat, y: nat
      ensures (x, y) in g.edges <==> (x, y) in h.edges
    {
      GroundEdge(d.mode, n, c, m, b, x, y);
      GroundEdge(d.mode, AfterAct(d, n, t), c, m, b, x, y);
    }
    forall e | e in g.edges ensures e in h.edges { assert (e.0, e.1) in g.edges; }
    forall e | e in h.edges ensures e in g.edges { assert (e.0, e.1) in h.edges; }
  }

  function TaskAt(ts: map<nat, Task>, i: nat): Option<Task> {
    if i in ts then Some(ts[i]) else None
  }

  lemma SameMap(f: map<nat, Task>, g: map<nat, Task>)
    requires forall i: nat :: TaskAt(f, i) == TaskAt(g, i)
    ensures f == g
  {
    forall i | i in f
      ensures i in g && f[i] == g[i]
    {
      assert TaskAt(f, i) == TaskAt(g, i);
    }
    forall i | i in g
      ensures i in f
    {
      assert TaskAt(f, i) == TaskAt(g, i);
    }
  }

  /** What a grounded network holds under an id. */
  lemma GroundTaskAt(mode: Mode, n: Net, c: nat, m: Body, b: Binding, i: nat)
    requires Valid(n) && c in n.tasks
    ensures TaskAt(Ground(mode, n, c, m, b).tasks, i) ==
            if i < n.next then (if i == c then None else TaskAt(n.tasks, i))
            else if i < n.next + |m.subs| then Some(SubTask(mode, n, c, m, b, i))
            else None
  {
  }

  /** Grounding at `c` does not look at another task `t`. */
  lemma GroundIgnores(mode: Mode, n: Net, n': Net, t: nat, c: nat, m: Body, b: Binding)
    requires Valid(n) && Valid(n') && t in n.tasks && c in n.tasks && t != c
    requires n'.tasks == n.tasks - {t} && n'.next == n.next && |n'.checks| == |n.checks|
    ensures Ground(mode, n, c, m, b).tasks - {t} == Ground(mode, n', c, m, b).tasks
  {
    hide Ground;
    forall i: nat
      ensures TaskAt(Ground(mode, n, c, m, b).tasks - {t}, i) == TaskAt(Ground(mode, n', c, m, b).tasks, i)
    {
      GroundTaskAt(mode, n, c, m, b, i);
      GroundTaskAt(mode, n', c, m, b, i);
    }
    SameMap(Ground(mode, n, c, m, b).tasks - {t}, Ground(mode, n', c, m, b).tasks);
  }

  lemma CommuteTasks<S>(d: Domain<S>, n: Net, t: nat, c: nat, m: Body, b: Binding)
    requires Valid(n) && t in n.tasks && c in n.tasks && t != c && n.tasks[t].head in d.actions
    ensures t in Ground(d.mode, n, c, m, b).tasks && Ground(d.mode, n, c, m, b).tasks[t] == n.tasks[t]
    ensures AfterAct(d, Ground(d.mode, n, c, m, b), t).tasks == Ground(d.mode, AfterAct(d, n, t), c, m, b).tasks
  {
    AfterActShape(d, n, t);
    GroundValid(d.mode, n, c, m, b);
    GroundTaskAt(d.mode, n, c, m, b, t);
    AfterActShape(d, Ground(d.mode, n, c, m, b), t);
    GroundIgnores(d.mode, n, AfterAct(d, n, t), t, c, m, b);
  }

  /** More checks after those there are change nothing in how the earlier ones are recorded. */
  lemma RecordGrown(n: Net, n': Net, isReal: bool, own: set<nat>, establishes: Option<nat>, more: seq<Check>)
    requires n'.checks == n.checks + more && n'.step == n.step && (forall k <- own :: k < |n.checks|)
    requires establishes.Some? ==> establishes.value < |n.checks|
    ensures Record(n', isReal, own, establishes).checks == Record(n, isReal, own, establishes).checks + more
    ensures Record(n', isReal, own, establishes).step == Record(n, isReal, own, establishes).step
  {
  }

  lemma CommuteChecks<S>(d: Domain<S>, n: Net, t: nat, c: nat, m: Body, b: Binding)
    requires Valid(n) && t in n.tasks && c in n.tasks && t != c && n.tasks[t].head in d.actions
    requires t in Ground(d.mode, n, c, m, b).tasks && Ground(d.mode, n, c, m, b).tasks[t] == n.tasks[t]
    ensures AfterAct(d, Ground(d.mode, n, c, m, b), t).checks == Ground(d.mode, AfterAct(d, n, t), c, m, b).checks
    ensures AfterAct(d, Ground(d.mode, n, c, m, b), t).step == Ground(d.mode, AfterAct(d, n, t), c, m, b).step
  {
    hide Record, NewTasks, NewEdges, CheckArgs;
    var g := Ground(d.mode, n, c, m, b);
    RecordGrown(RemoveTask(n, t), RemoveTask(g, t), IsReal(d, n, t), n.tasks[t].checks, n.tasks[t].establishes,
                if Records(d.mode, m) then [OwnCheck(m, b)] else []);
  }

  lemma CommuteAct<S>(d: Domain<S>, n: Net, t: nat, c: nat, m: Body, b: Binding)
    requires Valid(n) && Free(n, t) && Free(n, c) && t != c && n.tasks[t].head in d.actions
    ensures t in Ground(d.mode, n, c, m, b).tasks && Ground(d.mode, n, c, m, b).tasks[t] == n.tasks[t]
    ensures AfterAct(d, Ground(d.mode, n, c, m, b), t) == Ground(d.mode, AfterAct(d, n, t), c, m, b)
  {
    CommuteEdges(d, n, t, c, m, b);
    CommuteTasks(d, n, t, c, m, b);
    CommuteChecks(d, n, t, c, m, b);
  }

  /** Decomposing `c` leaves every other free task free. */
  lemma StaysFree(mode: Mode, n: Net, t: nat, c: nat, m: Body, b: Binding)
    requires Valid(n) && Free(n, t) && Free(n, c) && t != c
    ensures Free(Ground(mode, n, c, m, b), t) && Ground(mode, n, c, m, b).tasks[t] == n.tasks[t]
  {
    forall x: nat
      ensures (x, t) !in Ground(mode, n, c, m, b).edges
    {
      GroundEdge(mode, n, c, m, b, x, t);
    }
  }

  // ----- Two decompositions commute, up to the numbering of what they add -----

  lemma GroundLive(mode: Mode, n: Net, c: nat, m: Body, b: Binding, k: nat)
    requires Valid(n) && c in n.tasks && k < |n.checks| && Live(Ground(mode, n, c, m, b), k)
    ensures Live(n, k)
  {
    var g := Ground(mode, n, c, m, b);
    var i :| i in g.tasks && k in g.tasks[i].checks;
    GroundTask(mode, n, c, m, b, i);
    assert k in n.tasks[if i < n.next then i else c].checks;
  }

  /** Decomposing adds no open causal link. */
  lemma GroundLinks<S>(d: Domain<S>, n: Net, c: nat, m: Body, b: Binding, own: set<nat>, s: S)
    requires Valid(n) && c in n.tasks && LinksIntact(d, n, own, s)
    ensures LinksIntact(d, Ground(d.mode, n, c, m, b), own, s)
  {
    var g := Ground(d.mode, n, c, m, b);
    forall k | 0 <= k < |g.checks| && OpenLink(g, own, k)
      ensures Holds(d, s, g.checks[k].action, g.checks[k].args)
    {
      assert k < |n.checks|;
      GroundLive(d.mode, n, c, m, b, k);
      assert OpenLink(n, own, k);
    }
  }

  /** `t` then `c` against `c` then `t`: the blocks of new ids change places. */
  function SwapId(lo: nat, kt: nat, kc: nat, i: nat): nat {
    if i < lo then i
    else if i < lo + kt then i + kc
    else if i < lo + kt + kc then i - kt
    else i
  }

  function SwapCheck(mode: Mode, k: nat, mt: Body, mc: Body): seq<nat> {
    seq(k, i => i) +
    (if Records(mode, mt) then [if Records(mode, mc) then k + 1 else k] else []) +
    (if Records(mode, mc) then [k] else [])
  }

  /** What `t` then `c` leaves under an id. */
  lemma TwiceTaskAt(mode: Mode, n: Net, t: nat, mt: Body, bt: Binding, c: nat, mc: Body, bc: Binding, i: nat)
    requires Valid(n) && t in n.tasks && c in n.tasks && t != c
    ensures var n1 := Ground(mode, n, t, mt, bt);
      && Valid(n1) && c in n1.tasks && n1.tasks[c] == n.tasks[c] && n1.next == n.next + |mt.subs|
      && |n1.checks| == |n.checks| + (if Records(mode, mt) then 1 else 0)
      && TaskAt(Ground(mode, n1, c, mc, bc).tasks, i) == TwiceAt(mode, n, n1, t, mt, bt, c, mc, bc, i)
  {
    GroundValid(mode, n, t, mt, bt);
    GroundTaskAt(mode, n, t, mt, bt, c);
    GroundTaskAt(mode, n, t, mt, bt, i);
    GroundTaskAt(mode, Ground(mode, n, t, mt, bt), c, mc, bc, i);
  }

  ghost predicate SameTaskAt(g: seq<nat>, x: Option<Task>, y: Option<Task>) {
    match (x, y)
    case (None, None) => true
    case (Some(a), Some(b)) =>
      && (forall k <- a.checks :: k < |g|)
      && (a.establishes.Some? ==> a.establishes.value < |g|)
      && SameTask(g, a, b)
    case _ => false
  }

  /** A renaming that keeps the first `k` checks, and moves `own` to `own'`. */
  ghost predicate KeepsOld(g: seq<nat>, k: nat) {
    Injective(g) && k <= |g| && forall l :: 0 <= l < k ==> g[l] == l
  }

  lemma KeptTask(g: seq<nat>, k: nat, x: Task)
    requires KeepsOld(g, k) && (forall l <- x.checks :: l < k)
    requires x.establishes.Some? ==> x.establishes.value < k
    ensures SameTask(g, x, x)
  {
    forall l | l in x.checks
      ensures exists i :: 0 <= i < |g| && g[i] == l
    {
      assert g[l] == l;
    }
    forall l | 0 <= l < |g|
      ensures l in x.checks <==> g[l] in x.checks
    {
      if g[l] in x.checks {
        assert g[g[l]] == g[l];
      }
    }
  }

  lemma SwapSubTask(g: seq<nat>, k: nat, mode: Mode, a: Net, b: Net, t: nat, m: Body, bind: Binding, i: nat, j: nat)
    requires t in a.tasks && t in b.tasks && a.tasks[t] == b.tasks[t]
    requires KeepsOld(g, k) && (forall l <- a.tasks[t].checks :: l < k)
    requires k <= |a.checks| && k <= |b.checks|
    requires Records(mode, m) ==> |a.checks| < |g| && g[|a.checks|] == |b.checks|
    requires a.next <= i < a.next + |m.subs| && j == b.next + (i - a.next)
    ensures SameTaskAt(g, Some(SubTask(mode, a, t, m, bind, i)), Some(SubTask(mode, b, t, m, bind, j)))
  {
    var x, y := SubTask(mode, a, t, m, bind, i), SubTask(mode, b, t, m, bind, j);
    forall l | l in y.checks
      ensures exists o :: 0 <= o < |g| && g[o] == l
    {
      var o := if l == |b.checks| && Records(mode, m) then |a.checks| else l;
      assert g[o] == l;
    }
    forall l | 0 <= l < |g|
      ensures l in x.checks <==> g[l] in y.checks
    {
      if g[l] < k {
        assert g[g[l]] == g[l];
      }
    }
  }

  lemma SwapCheckKeeps(mode: Mode, k: nat, mt: Body, mc: Body)
    ensures KeepsOld(SwapCheck(mode, k, mt, mc), k)
    ensures |SwapCheck(mode, k, mt, mc)| ==
        k + (if Records(mode, mt) then 1 else 0) + (if Records(mode, mc) then 1 else 0)
    ensures Records(mode, mt) ==> SwapCheck(mode, k, mt, mc)[k] == k + (if Records(mode, mc) then 1 else 0)
    ensures Records(mode, mc) ==> SwapCheck(mode, k, mt, mc)[k + (if Records(mode, mt) then 1 else 0)] == k
  {
  }

  /** What the ids of the twice-grounded network hold, `first` before `second`. */
  function TwiceAt(mode: Mode, n: Net, n1: Net, t: nat, mt: Body, bt: Binding, c: nat, mc: Body, bc: Binding,
        i: nat): Option<Task>
    requires t in n.tasks && c in n1.tasks && n1.next == n.next + |mt.subs|
  {
    if i < n.next then (if i == c || i == t then None else TaskAt(n.tasks, i))
    else if i < n.next + |mt.subs| then Some(SubTask(mode, n, t, mt, bt, i))
    else if i < n.next + |mt.subs| + |mc.subs| then Some(SubTask(mode, n1, c, mc, bc, i))
    else None
  }

  lemma SwapTwiceAt(mode: Mode, n: Net, n1: Net, n2: Net, t: nat, mt: Body, bt: Binding, c: nat, mc: Body,
        bc: Binding, i: nat)
    requires Valid(n) && t in n.tasks && c in n.tasks && t != c
    requires c in n1.tasks && n1.tasks[c] == n.tasks[c] && n1.next == n.next + |mt.subs|
    requires t in n2.tasks && n2.tasks[t] == n.tasks[t] && n2.next == n.next + |mc.subs|
    requires |n1.checks| == |n.checks| + (if Records(mode, mt) then 1 else 0)
    requires |n2.checks| == |n.checks| + (if Records(mode, mc) then 1 else 0)
    ensures SameTaskAt(SwapCheck(mode, |n.checks|, mt, mc),
                       TwiceAt(mode, n, n1, t, mt, bt, c, mc, bc, i),
                       TwiceAt(mode, n, n2, c, mc, bc, t, mt, bt, SwapId(n.next, |mt.subs|, |mc.subs|, i)))
  {
    var k := |n.checks|;
    var g := SwapCheck(mode, k, mt, mc);
    SwapCheckKeeps(mode, k, mt, mc);
    var j := SwapId(n.next, |mt.subs|, |mc.subs|, i);
    if i < n.next {
      if i in n.tasks { KeptTask(g, k, n.tasks[i]); }
    } else if i < n.next + |mt.subs| {
      SwapSubTask(g, k, mode, n, n2, t, mt, bt, i, j);
    } else if i < n.next + |mt.subs| + |mc.subs| {
      SwapSubTask(g, k, mode, n1, n, c, mc, bc, i, j);
    }
  }

  lemma SwapTaskAt(mode: Mode, n: Net, t: nat, mt: Body, bt: Binding, c: nat, mc: Body, bc: Binding, i: nat)
    requires Valid(n) && t in n.tasks && c in n.tasks && t != c
    requires c in Ground(mode, n, t, mt, bt).tasks && t in Ground(mode, n, c, mc, bc).tasks
    ensures SameTaskAt(SwapCheck(mode, |n.checks|, mt, mc),
                       TaskAt(Ground(mode, Ground(mode, n, t, mt, bt), c, mc, bc).tasks, i),
                       TaskAt(Ground(mode, Ground(mode, n, c, mc, bc), t, mt, bt).tasks,
                           SwapId(n.next, |mt.subs|, |mc.subs|, i)))
  {
    var j := SwapId(n.next, |mt.subs|, |mc.subs|, i);
    TwiceTaskAt(mode, n, t, mt, bt, c, mc, bc, i);
    TwiceTaskAt(mode, n, c, mc, bc, t, mt, bt, j);
    SwapTwiceAt(mode, n, Ground(mode, n, t, mt, bt), Ground(mode, n, c, mc, bc), t, mt, bt, c, mc, bc, i);
  }

  lemma SwapEdge(mode: Mode, n: Net, t: nat, mt: Body, bt: Binding, c: nat, mc: Body, bc: Binding, i: nat, j: nat)
    requires Valid(n) && Free(n, t) && Free(n, c) && t != c
    requires c in Ground(mode, n, t, mt, bt).tasks && t in Ground(mode, n, c, mc, bc).tasks
    ensures var kt, kc := |mt.subs|, |mc.subs|;
      (i, j) in Ground(mode, Ground(mode, n, t, mt, bt), c, mc, bc).edges <==>
      (SwapId(n.next, kt, kc, i), SwapId(n.next, kt, kc, j)) in Ground(mode, Ground(mode, n, c, mc, bc), t, mt,
          bt).edges
  {
    var n1, n2 := Ground(mode, n, t, mt, bt), Ground(mode, n, c, mc, bc);
    GroundValid(mode, n, t, mt, bt);
    GroundValid(mode, n, c, mc, bc);
    var u, v := SwapId(n.next, |mt.subs|, |mc.subs|, i), SwapId(n.next, |mt.subs|, |mc.subs|, j);
    GroundEdge(mode, n1, c, mc, bc, i, j);
    GroundEdge(mode, n, t, mt, bt, i, j);
    GroundEdge(mode, n, t, mt, bt, c, j);
    GroundEdge(mode, n2, t, mt, bt, u, v);
    GroundEdge(mode, n, c, mc, bc, u, v);
    GroundEdge(mode, n, c, mc, bc, t, v);
    SwapHasEdge(n, n1, n2, t, mt, c, mc, i, j);
  }

  lemma SwapHasEdge(n: Net, n1: Net, n2: Net, t: nat, mt: Body, c: nat, mc: Body, i: nat, j: nat)
    requires Valid(n) && Free(n, t) && Free(n, c) && t != c
    requires n1.next == n.next + |mt.subs| && n2.next == n.next + |mc.subs|
    requires (i, j) in n1.edges <==> GroundHasEdge(n, t, mt, i, j)
    requires (c, j) in n1.edges <==> GroundHasEdge(n, t, mt, c, j)
    requires var u, v := SwapId(n.next, |mt.subs|, |mc.subs|, i), SwapId(n.next, |mt.subs|, |mc.subs|, j);
      ((u, v) in n2.edges <==> GroundHasEdge(n, c, mc, u, v)) && ((t, v) in n2.edges <==> GroundHasEdge(n, c, mc, t, v))
    ensures GroundHasEdge(n1, c, mc, i, j) <==>
            GroundHasEdge(n2, t, mt, SwapId(n.next, |mt.subs|, |mc.subs|, i), SwapId(n.next, |mt.subs|, |mc.subs|, j))
  {
    assert forall y: nat | (c, y) in n.edges || (t, y) in n.edges :: y < n.next by {
      forall y: nat | (c, y) in n.edges || (t, y) in n.edges
        ensures y < n.next
      {
        assert (c, y).1 in n.tasks || (t, y).1 in n.tasks;
      }
    }
  }

  lemma SwapGround(mode: Mode, n: Net, t: nat, mt: Body, bt: Binding, c: nat, mc: Body, bc: Binding)
      returns (r: Renaming)
    requires Valid(n) && Free(n, t) && Free(n, c) && t != c
    ensures c in Ground(mode, n, t, mt, bt).tasks && t in Ground(mode, n, c, mc, bc).tasks
    ensures Renames(r, Ground(mode, Ground(mode, n, t, mt, bt), c, mc, bc),
            Ground(mode, Ground(mode, n, c, mc, bc), t, mt, bt))
  {
    StaysFree(mode, n, t, c, mc, bc);
    StaysFree(mode, n, c, t, mt, bt);
    var n1, n2 := Ground(mode, n, t, mt, bt), Ground(mode, n, c, mc, bc);
    var x, y := Ground(mode, n1, c, mc, bc), Ground(mode, n2, t, mt, bt);
    var kt, kc := |mt.subs|, |mc.subs|;
    r := Renaming(map i | i in x.tasks :: SwapId(n.next, kt, kc, i),
                  map v | v in y.tasks :: SwapId(n.next, kc, kt, v),
                  SwapCheck(mode, |n.checks|, mt, mc));
    GroundValid(mode, n, t, mt, bt);
    GroundValid(mode, n, c, mc, bc);
    GroundValid(mode, n1, c, mc, bc);
    GroundValid(mode, n2, t, mt, bt);
    SwapBijection(mode, n, t, mt, bt, c, mc, bc, r);
    SwapChecks(mode, n, t, mt, bt, c, mc, bc, r);
    SwapEdges(mode, n, t, mt, bt, c, mc, bc, r);
    SwapTasks(mode, n, t, mt, bt, c, mc, bc, r);
  }

  lemma SwapIdInverse(lo: nat, kt: nat, kc: nat, i: nat)
    ensures SwapId(lo, kc, kt, SwapId(lo, kt, kc, i)) == i
  {
  }

  /** One direction of the swap, and back. */
  lemma SwapHalf(mode: Mode, n: Net, t: nat, mt: Body, bt: Binding, c: nat, mc: Body, bc: Binding, to: map<nat, nat>,
        from: map<nat, nat>)
    requires Valid(n) && t in n.tasks && c in n.tasks && t != c
    requires c in Ground(mode, n, t, mt, bt).tasks && t in Ground(mode, n, c, mc, bc).tasks
    requires to == map i | i in Ground(mode, Ground(mode, n, t, mt, bt), c, mc, bc).tasks ::
        SwapId(n.next, |mt.subs|, |mc.subs|, i)
    requires from == map v | v in Ground(mode, Ground(mode, n, c, mc, bc), t, mt, bt).tasks ::
        SwapId(n.next, |mc.subs|, |mt.subs|, v)
    ensures forall i <- to :: to[i] in from && from[to[i]] == i
  {
    forall i | i in to
      ensures to[i] in from && from[to[i]] == i
    {
      SwapTaskAt(mode, n, t, mt, bt, c, mc, bc, i);
      SwapIdInverse(n.next, |mt.subs|, |mc.subs|, i);
    }
  }

  lemma SwapBijection(mode: Mode, n: Net, t: nat, mt: Body, bt: Binding, c: nat, mc: Body, bc: Binding, r: Renaming)
    requires Valid(n) && t in n.tasks && c in n.tasks && t != c
    requires c in Ground(mode, n, t, mt, bt).tasks && t in Ground(mode, n, c, mc, bc).tasks
    requires r.to == map i | i in Ground(mode, Ground(mode, n, t, mt, bt), c, mc, bc).tasks ::
        SwapId(n.next, |mt.subs|, |mc.subs|, i)
    requires r.from == map v | v in Ground(mode, Ground(mode, n, c, mc, bc), t, mt, bt).tasks ::
        SwapId(n.next, |mc.subs|, |mt.subs|, v)
    ensures Bijection(r, Ground(mode, Ground(mode, n, t, mt, bt), c, mc, bc),
            Ground(mode, Ground(mode, n, c, mc, bc), t, mt, bt))
  {
    hide Ground, SwapId;
    SwapHalf(mode, n, t, mt, bt, c, mc, bc, r.to, r.from);
    SwapHalf(mode, n, c, mc, bc, t, mt, bt, r.from, r.to);
  }

  lemma SwapCheckSeq(mode: Mode, checks: seq<Check>, mt: Body, x: seq<Check>, mc: Body, y: seq<Check>)
    requires |x| == (if Records(mode, mt) then 1 else 0) && |y| == (if Records(mode, mc) then 1 else 0)
    ensures var g := SwapCheck(mode, |checks|, mt, mc);
      |g| == |checks + x + y| && Injective(g) &&
      forall k :: 0 <= k < |g| ==> (checks + y + x)[g[k]] == (checks + x + y)[k]
  {
    SwapCheckKeeps(mode, |checks|, mt, mc);
  }

  lemma SwapChecks(mode: Mode, n: Net, t: nat, mt: Body, bt: Binding, c: nat, mc: Body, bc: Binding, r: Renaming)
    requires Valid(n) && t in n.tasks && c in n.tasks && t != c
    requires c in Ground(mode, n, t, mt, bt).tasks && t in Ground(mode, n, c, mc, bc).tasks
    requires r.check == SwapCheck(mode, |n.checks|, mt, mc)
    ensures SameChecks(r, Ground(mode, Ground(mode, n, t, mt, bt), c, mc, bc),
            Ground(mode, Ground(mode, n, c, mc, bc), t, mt, bt))
  {
    SwapCheckSeq(mode, n.checks, mt, if Records(mode, mt) then [OwnCheck(mt, bt)] else [],
                 mc, if Records(mode, mc) then [OwnCheck(mc, bc)] else []);
  }

  lemma SwapEdges(mode: Mode, n: Net, t: nat, mt: Body, bt: Binding, c: nat, mc: Body, bc: Binding, r: Renaming)
    requires Valid(n) && Free(n, t) && Free(n, c) && t != c
    requires c in Ground(mode, n, t, mt, bt).tasks && t in Ground(mode, n, c, mc, bc).tasks
    requires r.to == map i | i in Ground(mode, Ground(mode, n, t, mt, bt), c, mc, bc).tasks ::
        SwapId(n.next, |mt.subs|, |mc.subs|, i)
    ensures SameEdges(r, Ground(mode, Ground(mode, n, t, mt, bt), c, mc, bc),
            Ground(mode, Ground(mode, n, c, mc, bc), t, mt, bt))
  {
    var x, y := Ground(mode, Ground(mode, n, t, mt, bt), c, mc, bc), Ground(mode, Ground(mode, n, c, mc, bc), t, mt,
        bt);
    forall i, j | i in r.to && j in r.to
      ensures (i, j) in x.edges <==> (r.to[i], r.to[j]) in y.edges
    {
      SwapEdge(mode, n, t, mt, bt, c, mc, bc, i, j);
    }
  }

  lemma SwapTasks(mode: Mode, n: Net, t: nat, mt: Body, bt: Binding, c: nat, mc: Body, bc: Binding, r: Renaming)
    requires Valid(n) && t in n.tasks && c in n.tasks && t != c
    requires c in Ground(mode, n, t, mt, bt).tasks && t in Ground(mode, n, c, mc, bc).tasks
    requires r.to == map i | i in Ground(mode, Ground(mode, n, t, mt, bt), c, mc, bc).tasks ::
        SwapId(n.next, |mt.subs|, |mc.subs|, i)
    requires r.check == SwapCheck(mode, |n.checks|, mt, mc)
    requires var x, y := Ground(mode, Ground(mode, n, t, mt, bt), c, mc, bc), Ground(mode, Ground(mode, n, c, mc, bc),
        t, mt, bt);
      Valid(x) && Bijection(r, x, y) && |r.check| == |x.checks|
    ensures SameTasks(r, Ground(mode, Ground(mode, n, t, mt, bt), c, mc, bc),
            Ground(mode, Ground(mode, n, c, mc, bc), t, mt, bt))
  {
    forall i | i in r.to {
      SwapTaskAt(mode, n, t, mt, bt, c, mc, bc, i);
    }
  }

  // ----- Moving a decomposition to the front -----

  /** Any solving run can be changed to begin with a decomposition of a given free compound task. */
  lemma {:induction false} DecomposeFirst<S(!new)>(d: Domain<S>, p: Point<S>, c: nat, run: seq<Move<S>>)
    returns (mi: nat, b: Binding, rest: seq<Move<S>>)
    requires Valid(p.net) && StableBindings(d) && Compound(d, p.net, c) && Solves(d, p, run)
    ensures CanDecompose(d, p, c, mi, b)
    ensures Solves(d, Next(d, p, Decompose(c, mi, b)), rest) && |rest| == |run| - 1
    decreases |run|
  {
    var mv := run[0];
    var q := Next(d, p, mv);
    NextValid(d, p, mv);
    if mv.t == c {
      mi, b, rest := mv.mi, mv.b, run[1..];
      return;
    }
    match mv
    case Act(t, to) =>
      AfterActShape(d, p.net, t);
      mi, b, rest := DecomposeFirst(d, q, c, run[1..]);
      rest := ActAfter(d, p, t, to, c, mi, b, rest);
    case Decompose(t, mj, bt) =>
      StaysFree(d.mode, p.net, c, t, d.methods[p.net.tasks[t].head][mj].body, bt);
      mi, b, rest := DecomposeFirst(d, q, c, run[1..]);
      rest := DecomposeAfter(d, p, t, mj, bt, c, mi, b, rest);
  }

  lemma ActAfter<S(!new)>(d: Domain<S>, p: Point<S>, t: nat, to: S, c: nat, mi: nat, b: Binding, run: seq<Move<S>>)
    returns (rest: seq<Move<S>>)
    requires Valid(p.net) && StableBindings(d) && Compound(d, p.net, c) && CanAct(d, p, t, to)
    requires var q := Next(d, p, Act(t, to));
      CanDecompose(d, q, c, mi, b) && Solves(d, Next(d, q, Decompose(c, mi, b)), run)
    ensures CanDecompose(d, p, c, mi, b)
    ensures Solves(d, Next(d, p, Decompose(c, mi, b)), rest) && |rest| == |run| + 1
  {
    var n := p.net;
    var m := d.methods[n.tasks[c].head][mi].body;
    AfterActShape(d, n, t);
    assert SameBindings(d, p.state, to);
    var p1 := Next(d, p, Decompose(c, mi, b));
    StaysFree(d.mode, n, t, c, m, b);
    CommuteAct(d, n, t, c, m, b);
    if d.mode != Compiled && IsReal(d, n, t) {
      assert FirstActionOk(d, p1.net, n.tasks[t].checks, p.state);
      if d.mode == Protected {
        GroundLinks(d, AfterAct(d, n, t), c, m, b, n.tasks[t].checks, to);
      }
    }
    assert Can(d, p1, Act(t, to));
    SolvesCons(d, p1, Act(t, to), run);
    rest := [Act(t, to)] + run;
  }

  lemma DecomposeAfter<S(!new)>(d: Domain<S>, p: Point<S>, t: nat, mj: nat, bt: Binding, c: nat, mi: nat, b: Binding,
          run: seq<Move<S>>)
    returns (rest: seq<Move<S>>)
    requires Valid(p.net) && Compound(d, p.net, c) && CanDecompose(d, p, t, mj, bt) && t != c
    requires var q := Next(d, p, Decompose(t, mj, bt));
      CanDecompose(d, q, c, mi, b) && Solves(d, Next(d, q, Decompose(c, mi, b)), run)
    ensures CanDecompose(d, p, c, mi, b)
    ensures Solves(d, Next(d, p, Decompose(c, mi, b)), rest) && |rest| == |run| + 1
  {
    var n := p.net;
    var mt, mc := d.methods[n.tasks[t].head][mj].body, d.methods[n.tasks[c].head][mi].body;
    StaysFree(d.mode, n, c, t, mt, bt);
    StaysFree(d.mode, n, t, c, mc, b);
    var p1 := Next(d, p, Decompose(c, mi, b));
    assert Can(d, p1, Decompose(t, mj, bt));
    var r := SwapGround(d.mode, n, t, mt, bt, c, mc, b);
    var q := Next(d, p, Decompose(t, mj, bt));
    var moved := RenamesRun(d, r, Next(d, q, Decompose(c, mi, b)), Next(d, p1, Decompose(t, mj, bt)), run);
    SolvesCons(d, p1, Decompose(t, mj, bt), moved);
    rest := [Decompose(t, mj, bt)] + moved;
  }

  // ----- Algorithm 3, whoever picks the compound task -----

  ghost predicate AnyCompound<S>(d: Domain<S>, n: Net) {
    exists c :: Compound(d, n, c)
  }

  /** Can the network be emptied in `k` moves when an adversary picks, at every point that has a
      free compound task, which one is decomposed next, and no action may run while one waits? */
  ghost predicate WinsSystematic<S(!new)>(d: Domain<S>, p: Point<S>, k: nat)
    decreases k, 1
  {
    p.net.tasks == map[] || (k > 0 && WinsOn(d, p, k))
  }

  ghost predicate WinsOn<S(!new)>(d: Domain<S>, p: Point<S>, k: nat)
    requires k > 0
    decreases k, 0
  {
    if AnyCompound(d, p.net)
    then forall c :: Compound(d, p.net, c) ==>
           exists mi, b :: CanDecompose(d, p, c, mi, b) && WinsSystematic(d, Next(d, p, Decompose(c, mi, b)), k - 1)
    else exists t, to :: CanAct(d, p, t, to) && WinsSystematic(d, Next(d, p, Act(t, to)), k - 1)
  }

  lemma {:induction false} SystematicLosesNothing<S(!new)>(d: Domain<S>, p: Point<S>, run: seq<Move<S>>)
    requires Valid(p.net) && StableBindings(d) && Solves(d, p, run)
    ensures WinsSystematic(d, p, |run|)
    decreases |run|, 1
  {
    if p.net.tasks != map[] {
      if AnyCompound(d, p.net) {
        forall c | Compound(d, p.net, c)
          ensures exists mi, b ::
              CanDecompose(d, p, c, mi, b) && WinsSystematic(d, Next(d, p, Decompose(c, mi, b)), |run| - 1)
        {
          var mi, b := SystematicPick(d, p, c, run);
        }
      } else {
        assert !Compound(d, p.net, run[0].t);
        NextValid(d, p, run[0]);
        SystematicLosesNothing(d, Next(d, p, run[0]), run[1..]);
        assert CanAct(d, p, run[0].t, run[0].to);
      }
    }
  }

  lemma {:induction false} SystematicPick<S(!new)>(d: Domain<S>, p: Point<S>, c: nat, run: seq<Move<S>>)
      returns (mi: nat, b: Binding)
    requires Valid(p.net) && StableBindings(d) && Solves(d, p, run) && Compound(d, p.net, c)
    ensures CanDecompose(d, p, c, mi, b) && |run| > 0
    ensures WinsSystematic(d, Next(d, p, Decompose(c, mi, b)), |run| - 1)
    decreases |run|, 0
  {
    var rest;
    mi, b, rest := DecomposeFirst(d, p, c, run);
    NextValid(d, p, Decompose(c, mi, b));
    SystematicLosesNothing(d, Next(d, p, Decompose(c, mi, b)), rest);
  }

  lemma {:induction false} SystematicIsSound<S(!new)>(d: Domain<S>, p: Point<S>, k: nat) returns (run: seq<Move<S>>)
    requires WinsSystematic(d, p, k)
    ensures Solves(d, p, run) && |run| <= k
    decreases k
  {
    if p.net.tasks == map[] {
      return [];
    }
    var mv := SystematicMove(d, p, k);
    var rest := SystematicIsSound(d, Next(d, p, mv), k - 1);
    SolvesCons(d, p, mv, rest);
    run := [mv] + rest;
  }

  lemma SystematicMove<S(!new)>(d: Domain<S>, p: Point<S>, k: nat) returns (mv: Move<S>)
    requires k > 0 && WinsOn(d, p, k)
    ensures Can(d, p, mv) && WinsSystematic(d, Next(d, p, mv), k - 1)
  {
    if AnyCompound(d, p.net) {
      var c :| Compound(d, p.net, c);
      var mi, b :| CanDecompose(d, p, c, mi, b) && WinsSystematic(d, Next(d, p, Decompose(c, mi, b)), k - 1);
      mv := Decompose(c, mi, b);
    } else {
      var t, to :| CanAct(d, p, t, to) && WinsSystematic(d, Next(d, p, Act(t, to)), k - 1);
      mv := Act(t, to);
    }
  }

  /** Algorithm 3 is complete and sound, against every way of picking the compound task. */
  lemma SystematicIsExact<S(!new)>(d: Domain<S>, p: Point<S>)
    requires Valid(p.net) && StableBindings(d)
    ensures Solvable(d, p) <==> exists k: nat :: WinsSystematic(d, p, k)
  {
    if Solvable(d, p) {
      var run :| Solves(d, p, run);
      SystematicLosesNothing(d, p, run);
      assert exists k: nat :: WinsSystematic(d, p, k);
    }
    if exists k: nat :: WinsSystematic(d, p, k) {
      var k: nat :| WinsSystematic(d, p, k);
      var run := SystematicIsSound(d, p, k);
      assert Solvable(d, p);
    }
  }

  /** Solvability through the candidates of Algorithm 2 or 3: with a free compound task `c` picked,
      a network is solvable exactly when some decomposition of `c` leads to a solvable one. */
  lemma OnePickDecides<S(!new)>(d: Domain<S>, p: Point<S>, c: nat)
    requires Valid(p.net) && StableBindings(d) && Compound(d, p.net, c)
    ensures Solvable(d, p) <==>
            exists mi, b :: CanDecompose(d, p, c, mi, b) && Solvable(d, Next(d, p, Decompose(c, mi, b)))
  {
    if Solvable(d, p) {
      var run :| Solves(d, p, run);
      var mi, b, rest := DecomposeFirst(d, p, c, run);
    }
    if mi, b :| CanDecompose(d, p, c, mi, b) && Solvable(d, Next(d, p, Decompose(c, mi, b))) {
      assert Can(d, p, Decompose(c, mi, b));
      SolvableByMove(d, p);
    }
  }

  // ----- Look-ahead -----

  /** What the loader guarantees of a method: a synthesised precondition subtask is ordered before
      every other subtask, passes no recorded constant and names an effect-free check of its own
      arity; and the orderings can be numbered so that each one climbs. */
  ghost predicate LoaderShape<S>(d: Domain<S>, m: Body) {
    && LabelsOk(m)
    && (exists rank: seq<nat> :: Climbs(m, rank))
    && (HasPre(m) ==>
          var pre := m.subs[PreIndex(m)];
          && (forall i :: 0 <= i < |pre.args| ==> !pre.args[i].constant)
          && pre.head in d.actions && d.actions[pre.head].artificial && d.actions[pre.head].arity == |pre.args|
          && (forall i :: 0 <= i < |m.subs| && i != PreIndex(m) ==> Ordered(m, PreIndex(m), i)))
  }

  ghost predicate Climbs(m: Body, rank: seq<nat>) {
    |rank| == |m.subs| && forall i, j :: 0 <= i < |m.subs| && 0 <= j < |m.subs| && Ordered(m, i, j) ==>
        rank[i] < rank[j]
  }

  /** Does the method's precondition hold under the binding, in this state? */
  predicate LooksGood<S>(d: Domain<S>, m: Body, b: Binding, s: S) {
    HasPre(m) ==> var pre := m.subs[PreIndex(m)]; Holds(d, s, pre.head, CheckArgs(pre.args, b))
  }

  /** Acyclic orderings leave some subtask last. */
  lemma LastExists(m: Body, rank: seq<nat>, i: nat) returns (j: nat)
    requires LabelsOk(m) && Climbs(m, rank) && i < |m.subs|
    ensures j < |m.subs| && Last(m, j)
    decreases MaxRank(rank) - rank[i]
  {
    if Last(m, i) {
      j := i;
    } else {
      var l :| l in m.orderings[m.subs[i].name];
      var k :| 0 <= k < |m.subs| && m.subs[k].name == l;
      assert Ordered(m, i, k);
      MaxRankBounds(rank, k);
      j := LastExists(m, rank, k);
    }
  }

  function MaxRank(rank: seq<nat>): nat {
    if rank == [] then 0 else if rank[0] > MaxRank(rank[1..]) then rank[0] else MaxRank(rank[1..])
  }

  lemma MaxRankBounds(rank: seq<nat>, i: nat)
    requires i < |rank|
    ensures rank[i] <= MaxRank(rank)
  {
    if i > 0 { MaxRankBounds(rank[1..], i - 1); }
  }

  /** With one free task, decomposing it leaves its precondition check the only free one. */
  lemma CheckIsOnlyFree<S>(d: Domain<S>, n: Net, t: nat, m: Body, b: Binding, x: nat)
    requires Valid(n) && LoaderShape(d, m) && HasPre(m)
    requires Free(n, t) && forall y :: Free(n, y) ==> y == t
    requires Free(Ground(d.mode, n, t, m, b), x)
    ensures x == n.next + PreIndex(m)
  {
    var g := Ground(d.mode, n, t, m, b);
    GroundTask(d.mode, n, t, m, b, x);
    if x >= n.next {
      if x != n.next + PreIndex(m) {
        GroundEdge(d.mode, n, t, m, b, n.next + PreIndex(m), x);
        assert false;
      }
    } else {
      assert !Free(n, x);
      var y: nat :| (y, x) in n.edges;
      assert (y, x).0 in n.tasks;
      GroundEdge(d.mode, n, t, m, b, y, x);
      var rank: seq<nat> :| Climbs(m, rank);
      var j := LastExists(m, rank, PreIndex(m));
      GroundEdge(d.mode, n, t, m, b, n.next + j, x);
      assert false;
    }
  }

  /** A binding that look-ahead prunes is a dead end: the failed check is the next step whatever
      happens. */
  lemma PrunedIsDead<S(!new)>(d: Domain<S>, p: Point<S>, t: nat, mi: nat, b: Binding)
    requires Valid(p.net) && CanDecompose(d, p, t, mi, b)
    requires var m := d.methods[p.net.tasks[t].head][mi].body; LoaderShape(d, m) && !LooksGood(d, m, b, p.state)
    requires forall x :: Free(p.net, x) ==> x == t
    ensures !Solvable(d, Next(d, p, Decompose(t, mi, b)))
  {
    var m := d.methods[p.net.tasks[t].head][mi].body;
    var q := Next(d, p, Decompose(t, mi, b));
    var c := p.net.next + PreIndex(m);
    GroundTaskAt(d.mode, p.net, t, m, b, c);
    var pre := m.subs[PreIndex(m)];
    assert q.net.tasks[c].args == CheckArgs(pre.args, b);
    forall mv | Can(d, q, mv)
      ensures false
    {
      CheckIsOnlyFree(d, p.net, t, m, b, mv.t);
    }
    SolvableByMove(d, q);
  }
}
