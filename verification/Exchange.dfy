/** Decompositions may be moved to the front of a run: the argument behind branching over one
    unconstrained compound task only (lib/cpphop/cppMCTShop.h, `expansion` and `simulation`). */
module Exchange {
  import opened Basics
  import opened Networks
  import opened Progression

  // ----- Networks that differ only in the numbering of tasks and checks -----

  /** New numbers for tasks, with their inverse, and for checks. */
  datatype Renaming = Renaming(to: map<nat, nat>, from: map<nat, nat>, check: seq<nat>)

  ghost predicate Bijection(r: Renaming, a: Net, b: Net) {
    && r.to.Keys == a.tasks.Keys && r.from.Keys == b.tasks.Keys
    && (forall i <- r.to :: r.to[i] in r.from && r.from[r.to[i]] == i)
    && (forall v <- r.from :: r.from[v] in r.to && r.to[r.from[v]] == v)
  }

  ghost predicate Injective(g: seq<nat>) {
    && (forall k :: 0 <= k < |g| ==> g[k] < |g|)
    && (forall k, l :: 0 <= k < |g| && 0 <= l < |g| && g[k] == g[l] ==> k == l)
  }

  ghost predicate SameTask(g: seq<nat>, x: Task, y: Task)
    requires forall k <- x.checks :: k < |g|
    requires x.establishes.Some? ==> x.establishes.value < |g|
  {
    && y.head == x.head && y.args == x.args
    && (forall k :: 0 <= k < |g| ==> (k in x.checks <==> g[k] in y.checks))
    && (forall l <- y.checks :: exists k :: 0 <= k < |g| && g[k] == l)
    && y.establishes == (if x.establishes.Some? then Some(g[x.establishes.value]) else None)
  }

  ghost predicate SameTasks(r: Renaming, a: Net, b: Net)
    requires Valid(a) && Bijection(r, a, b) && |r.check| == |a.checks|
  {
    forall i <- r.to :: SameTask(r.check, a.tasks[i], b.tasks[r.to[i]])
  }

  ghost predicate SameEdges(r: Renaming, a: Net, b: Net) {
    forall i, j :: i in r.to && j in r.to ==> ((i, j) in a.edges <==> (r.to[i], r.to[j]) in b.edges)
  }

  ghost predicate SameChecks(r: Renaming, a: Net, b: Net) {
    && |r.check| == |a.checks| == |b.checks| && Injective(r.check) && a.step == b.step
    && (forall k :: 0 <= k < |r.check| ==> b.checks[r.check[k]] == a.checks[k])
  }

  ghost predicate Renames(r: Renaming, a: Net, b: Net) {
    && Valid(a) && Valid(b)
    && Bijection(r, a, b) && SameEdges(r, a, b) && SameChecks(r, a, b) && SameTasks(r, a, b)
  }

  lemma FreeAcross(r: Renaming, a: Net, b: Net, t: nat)
    requires Bijection(r, a, b) && SameEdges(r, a, b) && Free(a, t)
    requires forall e <- b.edges :: e.0 in b.tasks && e.1 in b.tasks
    ensures Free(b, r.to[t])
  {
    forall x | x in r.from
      ensures (x, r.to[t]) in b.edges <==> (r.from[x], t) in a.edges
    {
    }
  }

  lemma RenamesFree(r: Renaming, a: Net, b: Net, t: nat)
    requires Renames(r, a, b) && Free(a, t)
    ensures Free(b, r.to[t])
  {
    FreeAcross(r, a, b, t);
  }

  function Without(r: Renaming, t: nat): Renaming
    requires t in r.to
  {
    r.(to := r.to - {t}, from := r.from - {r.to[t]})
  }

  lemma RenamesChecksAfterAct<S>(d: Domain<S>, r: Renaming, a: Net, b: Net, t: nat)
    requires Renames(r, a, b) && Primitive(d, a, t)
    ensures b.tasks[r.to[t]].head == a.tasks[t].head
    ensures SameChecks(r, AfterAct(d, a, t), AfterAct(d, b, r.to[t]))
  {
    var x, y := a.tasks[t], b.tasks[r.to[t]];
    assert SameTask(r.check, x, y);
    var a', b' := AfterAct(d, a, t), AfterAct(d, b, r.to[t]);
    forall k | 0 <= k < |r.check|
      ensures b'.checks[r.check[k]] == a'.checks[k]
    {
      assert k in x.checks <==> r.check[k] in y.checks;
    }
  }

  lemma RenamesBijectionAfterAct<S>(d: Domain<S>, r: Renaming, a: Net, b: Net, t: nat)
    requires Bijection(r, a, b) && Valid(a) && Valid(b) && Primitive(d, a, t) && Primitive(d, b, r.to[t])
    ensures Bijection(Without(r, t), AfterAct(d, a, t), AfterAct(d, b, r.to[t]))
  {
    hide AfterAct, Valid;
    AfterActShape(d, a, t);
    AfterActShape(d, b, r.to[t]);
  }

  lemma RenamesTasksAfterAct<S>(d: Domain<S>, r: Renaming, a: Net, b: Net, t: nat)
    requires Renames(r, a, b) && Primitive(d, a, t) && Primitive(d, b, r.to[t])
    requires Bijection(Without(r, t), AfterAct(d, a, t), AfterAct(d, b, r.to[t]))
    ensures |r.check| == |AfterAct(d, a, t).checks| && Valid(AfterAct(d, a, t))
    ensures SameTasks(Without(r, t), AfterAct(d, a, t), AfterAct(d, b, r.to[t]))
  {
    hide SameEdges, Injective, AfterAct, SameTask;
    AfterActShape(d, a, t);
    AfterActShape(d, b, r.to[t]);
    var r', a', b' := Without(r, t), AfterAct(d, a, t), AfterAct(d, b, r.to[t]);
    forall i | i in r'.to
      ensures SameTask(r'.check, a'.tasks[i], b'.tasks[r'.to[i]])
    {
      assert SameTask(r.check, a.tasks[i], b.tasks[r.to[i]]);
    }
  }

  lemma RenamesEdgesAfterAct<S>(d: Domain<S>, r: Renaming, a: Net, b: Net, t: nat)
    requires Bijection(r, a, b) && SameEdges(r, a, b) && Primitive(d, a, t) && Primitive(d, b, r.to[t])
    ensures SameEdges(Without(r, t), AfterAct(d, a, t), AfterAct(d, b, r.to[t]))
  {
    hide AfterAct;
    AfterActEdges(d, a, t);
    AfterActEdges(d, b, r.to[t]);
  }

  lemma RenamesAfterAct<S>(d: Domain<S>, r: Renaming, a: Net, b: Net, t: nat)
    requires Renames(r, a, b) && Primitive(d, a, t)
    ensures Primitive(d, b, r.to[t])
    ensures Renames(Without(r, t), AfterAct(d, a, t), AfterAct(d, b, r.to[t]))
  {
    RenamesFree(r, a, b, t);
    RenamesChecksAfterAct(d, r, a, b, t);
    AfterActShape(d, b, r.to[t]);
    RenamesBijectionAfterAct(d, r, a, b, t);
    RenamesTasksAfterAct(d, r, a, b, t);
    RenamesEdgesAfterAct(d, r, a, b, t);
  }

  lemma RenamesLive(r: Renaming, a: Net, b: Net, k: nat)
    requires Renames(r, a, b) && k < |r.check| && Live(b, r.check[k])
    ensures Live(a, k)
  {
    var v :| v in b.tasks && r.check[k] in b.tasks[v].checks;
    assert SameTask(r.check, a.tasks[r.from[v]], b.tasks[v]);
  }

  lemma RenamesLinks<S>(d: Domain<S>, r: Renaming, a: Net, b: Net, x: Task, y: Task, s: S)
    requires Renames(r, a, b) && LinksIntact(d, a, x.checks, s)
    requires forall k <- x.checks :: k < |r.check|
    requires x.establishes.Some? ==> x.establishes.value < |r.check|
    requires SameTask(r.check, x, y)
    ensures LinksIntact(d, b, y.checks, s)
  {
    forall l | 0 <= l < |b.checks| && OpenLink(b, y.checks, l)
      ensures Holds(d, s, b.checks[l].action, b.checks[l].args)
    {
      var v :| v in b.tasks && l in b.tasks[v].checks;
      assert SameTask(r.check, a.tasks[r.from[v]], b.tasks[v]);
      var k :| 0 <= k < |r.check| && r.check[k] == l;
      RenamesLive(r, a, b, k);
      assert OpenLink(a, x.checks, k);
    }
  }

  lemma RenamesFirst<S>(d: Domain<S>, r: Renaming, a: Net, b: Net, t: nat, s: S)
    requires Renames(r, a, b) && t in a.tasks && FirstActionOk(d, a, a.tasks[t].checks, s)
    ensures FirstActionOk(d, b, b.tasks[r.to[t]].checks, s)
  {
    assert SameTask(r.check, a.tasks[t], b.tasks[r.to[t]]);
    forall l | l in b.tasks[r.to[t]].checks && l < |b.checks| && Due(b, l)
      ensures Holds(d, s, b.checks[l].action, b.checks[l].args)
    {
      var k :| 0 <= k < |r.check| && r.check[k] == l;
      assert k in a.tasks[t].checks && Due(a, k);
    }
  }

  // ----- Grounding the same method in both -----

  /** The ids from `lo` on, `k` of them, sent to those from `hi` on. */
  function Block(lo: nat, hi: nat, k: nat): (b: map<nat, nat>)
    ensures forall i :: i in b <==> lo <= i < lo + k
    ensures forall i :: i in b ==> b[i] == hi + (i - lo)
  {
    if k == 0 then map[] else Block(lo, hi, k - 1)[lo + k - 1 := hi + k - 1]
  }

  function WithGround(r: Renaming, a: Net, b: Net, t: nat, mode: Mode, m: Body): Renaming
    requires t in r.to
  {
    Renaming((r.to - {t}) + Block(a.next, b.next, |m.subs|),
             (r.from - {r.to[t]}) + Block(b.next, a.next, |m.subs|),
             r.check + (if Records(mode, m) then [|b.checks|] else []))
  }

  lemma RenamesGroundEdge(r: Renaming, a: Net, b: Net, t: nat, m: Body, i: nat, j: nat, u: nat, v: nat)
    requires Valid(a) && Valid(b) && Bijection(r, a, b) && SameEdges(r, a, b) && t in a.tasks
    requires if i < a.next then i in r.to && i != t && u == r.to[i]
        else i < a.next + |m.subs| && u == b.next + (i - a.next)
    requires if j < a.next then j in r.to && j != t && v == r.to[j]
        else j < a.next + |m.subs| && v == b.next + (j - a.next)
    ensures GroundHasEdge(a, t, m, i, j) <==> GroundHasEdge(b, r.to[t], m, u, v)
  {
  }

  lemma RenamesGroundEdges(mode: Mode, r: Renaming, a: Net, b: Net, t: nat, m: Body, bind: Binding)
    requires Valid(a) && Valid(b) && Bijection(r, a, b) && SameEdges(r, a, b) && t in a.tasks
    ensures SameEdges(WithGround(r, a, b, t, mode, m), Ground(mode, a, t, m, bind), Ground(mode, b, r.to[t], m, bind))
  {
    var r' := WithGround(r, a, b, t, mode, m);
    var a', b' := Ground(mode, a, t, m, bind), Ground(mode, b, r.to[t], m, bind);
    forall i, j | i in r'.to && j in r'.to
      ensures (i, j) in a'.edges <==> (r'.to[i], r'.to[j]) in b'.edges
    {
      GroundEdge(mode, a, t, m, bind, i, j);
      GroundEdge(mode, b, r.to[t], m, bind, r'.to[i], r'.to[j]);
      RenamesGroundEdge(r, a, b, t, m, i, j, r'.to[i], r'.to[j]);
    }
  }

  lemma WithGroundInverse(r: Renaming, a: Net, b: Net, t: nat, mode: Mode, m: Body)
    requires Valid(a) && Valid(b) && Bijection(r, a, b) && t in a.tasks
    ensures var r' := WithGround(r, a, b, t, mode, m);
      && (forall i <- r'.to :: r'.to[i] in r'.from && r'.from[r'.to[i]] == i)
      && (forall v <- r'.from :: r'.from[v] in r'.to && r'.to[r'.from[v]] == v)
  {
  }

  lemma RenamesGroundBijection(mode: Mode, r: Renaming, a: Net, b: Net, t: nat, m: Body, bind: Binding)
    requires Valid(a) && Valid(b) && Bijection(r, a, b) && t in a.tasks
    ensures Bijection(WithGround(r, a, b, t, mode, m), Ground(mode, a, t, m, bind), Ground(mode, b, r.to[t], m, bind))
  {
    WithGroundInverse(r, a, b, t, mode, m);
    GroundKeys(mode, a, t, m, bind, Block(a.next, b.next, |m.subs|));
    GroundKeys(mode, b, r.to[t], m, bind, Block(b.next, a.next, |m.subs|));
  }

  lemma GroundKeys(mode: Mode, n: Net, t: nat, m: Body, bind: Binding, block: map<nat, nat>)
    requires t in n.tasks
    requires forall i :: i in block <==> n.next <= i < n.next + |m.subs|
    ensures Ground(mode, n, t, m, bind).tasks.Keys == (n.tasks.Keys - {t}) + block.Keys
  {
  }

  lemma RenamesGroundChecks(mode: Mode, r: Renaming, a: Net, b: Net, t: nat, m: Body, bind: Binding)
    requires Valid(a) && Valid(b) && Bijection(r, a, b) && SameChecks(r, a, b) && t in a.tasks
    ensures SameChecks(WithGround(r, a, b, t, mode, m), Ground(mode, a, t, m, bind), Ground(mode, b, r.to[t], m, bind))
  {
  }

  lemma RenamesSubTask(g: seq<nat>, g': seq<nat>, mode: Mode, a: Net, b: Net, t: nat, u: nat, m: Body, bind: Binding,
        i: nat, j: nat)
    requires t in a.tasks && u in b.tasks && |g| == |a.checks| == |b.checks| && Injective(g)
    requires forall k <- a.tasks[t].checks :: k < |g|
    requires a.tasks[t].establishes.Some? ==> a.tasks[t].establishes.value < |g|
    requires SameTask(g, a.tasks[t], b.tasks[u])
    requires a.next <= i < a.next + |m.subs| && j == b.next + (i - a.next)
    requires g' == g + (if Records(mode, m) then [|b.checks|] else [])
    ensures forall k <- SubTask(mode, a, t, m, bind, i).checks :: k < |g'|
    ensures SubTask(mode, a, t, m, bind, i).establishes.Some? ==>
      SubTask(mode, a, t, m, bind, i).establishes.value < |g'|
    ensures SameTask(g', SubTask(mode, a, t, m, bind, i), SubTask(mode, b, u, m, bind, j))
  {
    var x, y := SubTask(mode, a, t, m, bind, i), SubTask(mode, b, u, m, bind, j);
    forall l | l in y.checks
      ensures exists k :: 0 <= k < |g'| && g'[k] == l
    {
      if l == |b.checks| {
        assert g'[|g|] == l;
      } else {
        var k :| 0 <= k < |g| && g[k] == l;
        assert g'[k] == l;
      }
    }
  }

  /** The tasks of a grounded network: the new ones, and the others as they were. */
  lemma GroundTask(mode: Mode, n: Net, t: nat, m: Body, bind: Binding, i: nat)
    requires Valid(n) && t in n.tasks && i in Ground(mode, n, t, m, bind).tasks
    ensures if i < n.next then i in n.tasks && i != t && Ground(mode, n, t, m, bind).tasks[i] == n.tasks[i]
            else i < n.next + |m.subs| && Ground(mode, n, t, m, bind).tasks[i] == SubTask(mode, n, t, m, bind, i)
  {
  }

  lemma RenamesGroundTask(mode: Mode, r: Renaming, a: Net, b: Net, t: nat, m: Body, bind: Binding, i: nat, j: nat,
        x: Task, y: Task)
    requires Renames(r, a, b) && t in a.tasks
    requires if i < a.next then i in a.tasks && j == r.to[i] && x == a.tasks[i] && y == b.tasks[j]
             else i < a.next + |m.subs| && j == b.next + (i - a.next)
                  && x == SubTask(mode, a, t, m, bind, i) && y == SubTask(mode, b, r.to[t], m, bind, j)
    ensures var g' := WithGround(r, a, b, t, mode, m).check;
      && (forall k <- x.checks :: k < |g'|)
      && (x.establishes.Some? ==> x.establishes.value < |g'|)
      && SameTask(g', x, y)
  {
    var g' := WithGround(r, a, b, t, mode, m).check;
    if i < a.next {
      SameTaskExtends(r.check, g', x, y);
    } else {
      assert SameTask(r.check, a.tasks[t], b.tasks[r.to[t]]);
      RenamesSubTask(r.check, g', mode, a, b, t, r.to[t], m, bind, i, j);
    }
  }

  lemma RenamesGroundTaskAt(mode: Mode, r: Renaming, a: Net, b: Net, t: nat, m: Body, bind: Binding, i: nat)
    requires Renames(r, a, b) && t in a.tasks && i in Ground(mode, a, t, m, bind).tasks
    ensures var g' := WithGround(r, a, b, t, mode, m);
      && i in g'.to && g'.to[i] in Ground(mode, b, r.to[t], m, bind).tasks
      && var x, y := Ground(mode, a, t, m, bind).tasks[i], Ground(mode, b, r.to[t], m, bind).tasks[g'.to[i]];
      && (forall k <- x.checks :: k < |g'.check|)
      && (x.establishes.Some? ==> x.establishes.value < |g'.check|)
      && SameTask(g'.check, x, y)
  {
    GroundTask(mode, a, t, m, bind, i);
    RenamesGroundBijection(mode, r, a, b, t, m, bind);
    var j := WithGround(r, a, b, t, mode, m).to[i];
    GroundTask(mode, b, r.to[t], m, bind, j);
    RenamesGroundTask(mode, r, a, b, t, m, bind, i, j,
      Ground(mode, a, t, m, bind).tasks[i], Ground(mode, b, r.to[t], m, bind).tasks[j]);
  }

  lemma RenamesGroundTasks(mode: Mode, r: Renaming, a: Net, b: Net, t: nat, m: Body, bind: Binding)
    requires Renames(r, a, b) && t in a.tasks
    requires Bijection(WithGround(r, a, b, t, mode, m), Ground(mode, a, t, m, bind), Ground(mode, b, r.to[t], m, bind))
    requires Valid(Ground(mode, a, t, m, bind))
    requires |WithGround(r, a, b, t, mode, m).check| == |Ground(mode, a, t, m, bind).checks|
    ensures SameTasks(WithGround(r, a, b, t, mode, m), Ground(mode, a, t, m, bind), Ground(mode, b, r.to[t], m, bind))
  {
    forall i | i in Ground(mode, a, t, m, bind).tasks {
      RenamesGroundTaskAt(mode, r, a, b, t, m, bind, i);
    }
  }

  lemma SameTaskExtends(g: seq<nat>, g': seq<nat>, x: Task, y: Task)
    requires forall k <- x.checks :: k < |g|
    requires x.establishes.Some? ==> x.establishes.value < |g|
    requires g <= g' && Injective(g') && SameTask(g, x, y)
    ensures SameTask(g', x, y)
  {
    forall l | l in y.checks
      ensures exists k :: 0 <= k < |g'| && g'[k] == l
    {
      var k :| 0 <= k < |g| && g[k] == l;
      assert g'[k] == l;
    }
    forall k | 0 <= k < |g'|
      ensures k in x.checks <==> g'[k] in y.checks
    {
      assert forall l :: 0 <= l < |g| ==> g'[l] == g[l];
    }
  }

  lemma RenamesGround(mode: Mode, r: Renaming, a: Net, b: Net, t: nat, m: Body, bind: Binding)
    requires Renames(r, a, b) && t in a.tasks
    ensures Renames(WithGround(r, a, b, t, mode, m), Ground(mode, a, t, m, bind), Ground(mode, b, r.to[t], m, bind))
  {
    GroundValid(mode, a, t, m, bind);
    GroundValid(mode, b, r.to[t], m, bind);
    RenamesGroundBijection(mode, r, a, b, t, m, bind);
    RenamesGroundEdges(mode, r, a, b, t, m, bind);
    RenamesGroundChecks(mode, r, a, b, t, m, bind);
    RenamesGroundTasks(mode, r, a, b, t, m, bind);
  }

  // ----- Renamed networks have the same runs -----

  ghost function RenameMove<S>(r: Renaming, mv: Move<S>): Move<S>
    requires mv.t in r.to
  {
    match mv
    case Act(t, to) => Act(r.to[t], to)
    case Decompose(t, mi, b) => Decompose(r.to[t], mi, b)
  }

  lemma RenamesMove<S>(d: Domain<S>, r: Renaming, p: Point<S>, q: Point<S>, mv: Move<S>) returns (r': Renaming)
    requires Renames(r, p.net, q.net) && p.state == q.state && Can(d, p, mv)
    ensures Can(d, q, RenameMove(r, mv))
    ensures Next(d, p, mv).state == Next(d, q, RenameMove(r, mv)).state
    ensures Renames(r', Next(d, p, mv).net, Next(d, q, RenameMove(r, mv)).net)
  {
    var a, b, t := p.net, q.net, mv.t;
    RenamesFree(r, a, b, t);
    assert SameTask(r.check, a.tasks[t], b.tasks[r.to[t]]);
    match mv
    case Act(_, to) =>
      r' := Without(r, t);
      RenamesAfterAct(d, r, a, b, t);
      if d.mode != Compiled && IsReal(d, a, t) {
        RenamesFirst(d, r, a, b, t, p.state);
        if d.mode == Protected {
          AfterActShape(d, a, t);
          RenamesLinks(d, r', AfterAct(d, a, t), AfterAct(d, b, r.to[t]), a.tasks[t], b.tasks[r.to[t]], to);
        }
      }
    case Decompose(_, mi, bind) =>
      var m := d.methods[a.tasks[t].head][mi].body;
      r' := WithGround(r, a, b, t, d.mode, m);
      RenamesGround(d.mode, r, a, b, t, m, bind);
  }

  lemma {:induction false} RenamesRun<S>(d: Domain<S>, r: Renaming, p: Point<S>, q: Point<S>, run: seq<Move<S>>)
    returns (run': seq<Move<S>>)
    requires Renames(r, p.net, q.net) && p.state == q.state && Solves(d, p, run)
    ensures |run'| == |run| && Solves(d, q, run')
    decreases |run|
  {
    if run == [] {
      run' := [];
      assert q.net.tasks.Keys == {};
    } else {
      var mv := RenameMove(r, run[0]);
      var r' := RenamesMove(d, r, p, q, run[0]);
      var rest := RenamesRun(d, r', Next(d, p, run[0]), Next(d, q, mv), run[1..]);
      SolvesCons(d, q, mv, rest);
      run' := [mv] + rest;
    }
  }
}
