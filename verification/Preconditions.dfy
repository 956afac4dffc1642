/** What the precondition modes promise of every run (lib/typedefs.h, `PreconditionMode`, and
    namespace `mprec` of lib/cpphop/cppMCTShop.h). */
module Preconditions {
  import opened Basics
  import opened Networks
  import opened Progression
  import opened Exchange
  import opened Completeness
  import opened Rollout

  /** The points a run passes through, its start and its end included. */
  ghost function Trace<S>(d: Domain<S>, p: Point<S>, run: seq<Move<S>>): (tr: seq<Point<S>>)
    requires IsRun(d, p, run)
    ensures |tr| == |run| + 1 && tr[0] == p
    decreases |run|
  {
    if run == [] then [p] else [p] + Trace(d, Next(d, p, run[0]), run[1..])
  }

  lemma {:induction false} TraceStep<S>(d: Domain<S>, p: Point<S>, run: seq<Move<S>>, i: nat)
    requires IsRun(d, p, run) && i < |run|
    ensures var tr := Trace(d, p, run); Can(d, tr[i], run[i]) && tr[i + 1] == Next(d, tr[i], run[i])
    decreases |run|
  {
    if i > 0 {
      TraceStep(d, Next(d, p, run[0]), run[1..], i - 1);
    }
  }

  ghost predicate CheckHolds<S>(d: Domain<S>, p: Point<S>, k: nat)
    requires k < |p.net.checks|
  {
    Holds(d, p.state, p.net.checks[k].action, p.net.checks[k].args)
  }

  /** The task that establishes check `k` is the very check it stands for. */
  ghost predicate EstablishersMatch<S>(d: Domain<S>, n: Net) {
    forall t <- n.tasks :: n.tasks[t].establishes.Some? && n.tasks[t].establishes.value < |n.checks| ==>
      var c := n.checks[n.tasks[t].establishes.value];
      && n.tasks[t].head == c.action && n.tasks[t].args == c.args
      && c.action in d.actions && d.actions[c.action].artificial
  }

  /** A check that passed at this very step still holds: the state is the one it passed in. */
  ghost predicate CacheOk<S>(d: Domain<S>, p: Point<S>) {
    forall k :: 0 <= k < |p.net.checks| ==>
      && p.net.checks[k].at <= p.net.step
      && (p.net.checks[k].established && p.net.checks[k].at == p.net.step ==> CheckHolds(d, p, k))
  }

  ghost predicate Sound<S>(d: Domain<S>, p: Point<S>) {
    Valid(p.net) && EstablishersMatch(d, p.net) && CacheOk(d, p)
  }

  predicate Open(c: Check) {
    c.established && !c.consumed
  }

  /** Protected mode: every open causal link holds. */
  ghost predicate LinksHeld<S>(d: Domain<S>, p: Point<S>) {
    forall k :: 0 <= k < |p.net.checks| && Live(p.net, k) && Open(p.net.checks[k]) ==> CheckHolds(d, p, k)
  }

  lemma PreUnique(m: Body, i: nat)
    requires LabelsOk(m) && HasPre(m) && i < |m.subs| && m.subs[i].name == PRE_LABEL
    ensures i == PreIndex(m)
  {
  }

  lemma GroundMatches<S>(d: Domain<S>, n: Net, t: nat, m: Body, b: Binding)
    requires Valid(n) && t in n.tasks && EstablishersMatch(d, n) && LoaderShape(d, m)
    ensures EstablishersMatch(d, Ground(d.mode, n, t, m, b))
  {
    var g := Ground(d.mode, n, t, m, b);
    forall i | i in g.tasks && g.tasks[i].establishes.Some? && g.tasks[i].establishes.value < |g.checks|
      ensures var c := g.checks[g.tasks[i].establishes.value];
        && g.tasks[i].head == c.action && g.tasks[i].args == c.args
        && c.action in d.actions && d.actions[c.action].artificial
    {
      GroundTask(d.mode, n, t, m, b, i);
      if i >= n.next {
        PreUnique(m, i - n.next);
        var pre := m.subs[PreIndex(m)];
        assert GroundArgs(pre.args, b) == CheckArgs(pre.args, b);
      }
    }
  }

  /** Every move keeps the bookkeeping sound. */
  lemma MoveKeepsSound<S>(d: Domain<S>, p: Point<S>, mv: Move<S>)
    requires d.mode != Compiled && LoaderShapes(d) && Sound(d, p) && Can(d, p, mv)
    ensures Sound(d, Next(d, p, mv))
  {
    NextValid(d, p, mv);
    match mv
    case Act(t, to) =>
      AfterActShape(d, p.net, t);
    case Decompose(t, mi, b) =>
      GroundMatches(d, p.net, t, d.methods[p.net.tasks[t].head][mi].body, b);
  }

  /** Skipping the re-evaluation is always justified: the test with the cache is the plain test that
      every unconsumed check holds now. */
  lemma SkipIsJustified<S>(d: Domain<S>, p: Point<S>, own: set<nat>)
    requires Sound(d, p) && forall k <- own :: k < |p.net.checks|
    ensures FirstActionOk(d, p.net, own, p.state) <==>
            forall k <- own :: !p.net.checks[k].consumed ==> CheckHolds(d, p, k)
  {
  }

  lemma AfterActLive<S>(d: Domain<S>, n: Net, t: nat, k: nat)
    requires Valid(n) && t in n.tasks && n.tasks[t].head in d.actions && Live(AfterAct(d, n, t), k)
    ensures Live(n, k)
  {
    AfterActShape(d, n, t);
    var i :| i in AfterAct(d, n, t).tasks && k in AfterAct(d, n, t).tasks[i].checks;
    assert i in n.tasks && k in n.tasks[i].checks;
  }

  lemma MoveKeepsLinks<S>(d: Domain<S>, p: Point<S>, mv: Move<S>)
    requires d.mode == Protected && LoaderShapes(d) && Sound(d, p) && LinksHeld(d, p) && Can(d, p, mv)
    ensures LinksHeld(d, Next(d, p, mv))
  {
    var q := Next(d, p, mv);
    forall k | 0 <= k < |q.net.checks| && Live(q.net, k) && q.net.checks[k].established && !q.net.checks[k].consumed
      ensures CheckHolds(d, q, k)
    {
      match mv
      case Act(t, to) =>
        AfterActShape(d, p.net, t);
        AfterActLive(d, p.net, t, k);
        if IsReal(d, p.net, t) {
          assert OpenLink(q.net, p.net.tasks[t].checks, k);
        }
      case Decompose(t, mi, b) =>
        GroundLive(d.mode, p.net, t, d.methods[p.net.tasks[t].head][mi].body, b, k);
    }
  }

  // ----- Whole runs -----

  /** A network no method has been applied to yet: what the search starts from. */
  ghost predicate Fresh(n: Net) {
    Valid(n) && n.checks == [] && forall t <- n.tasks :: n.tasks[t].establishes.None?
  }

  lemma {:induction false} SoundAlong<S>(d: Domain<S>, p: Point<S>, run: seq<Move<S>>, i: nat)
    requires d.mode != Compiled && LoaderShapes(d) && Fresh(p.net) && IsRun(d, p, run) && i <= |run|
    ensures Sound(d, Trace(d, p, run)[i])
    ensures d.mode == Protected ==> LinksHeld(d, Trace(d, p, run)[i])
  {
    if i > 0 {
      SoundAlong(d, p, run, i - 1);
      TraceStep(d, p, run, i - 1);
      MoveKeepsSound(d, Trace(d, p, run)[i - 1], run[i - 1]);
      if d.mode == Protected {
        MoveKeepsLinks(d, Trace(d, p, run)[i - 1], run[i - 1]);
      }
    }
  }

  /** Step `i` of the run is a real action of a task carrying check `k`. */
  ghost predicate Carries<S>(d: Domain<S>, p: Point<S>, run: seq<Move<S>>, i: nat, k: nat)
    requires IsRun(d, p, run) && i < |run|
  {
    var q := Trace(d, p, run)[i];
    TraceStep(d, p, run, i);
    run[i].Act? && IsReal(d, q.net, run[i].t) && k in q.net.tasks[run[i].t].checks
  }

  /** Step `i` is the early check of `k`. */
  ghost predicate Establishes<S>(d: Domain<S>, p: Point<S>, run: seq<Move<S>>, i: nat, k: nat)
    requires IsRun(d, p, run) && i < |run|
  {
    var q := Trace(d, p, run)[i];
    TraceStep(d, p, run, i);
    run[i].Act? && q.net.tasks[run[i].t].establishes == Some(k)
  }

  /** Step `i` is the first real action that carries check `k`. */
  ghost predicate FirstCarrier<S>(d: Domain<S>, p: Point<S>, run: seq<Move<S>>, i: nat, k: nat)
    requires IsRun(d, p, run) && i < |run|
  {
    Carries(d, p, run, i, k) && forall j :: 0 <= j < i ==> !Carries(d, p, run, j, k)
  }

  lemma {:induction false} ConsumedHasCarrier<S>(d: Domain<S>, p: Point<S>, run: seq<Move<S>>, i: nat, k: nat)
    requires d.mode != Compiled && LoaderShapes(d) && Fresh(p.net) && IsRun(d, p, run) && i <= |run|
    requires k < |Trace(d, p, run)[i].net.checks| && Trace(d, p, run)[i].net.checks[k].consumed
    ensures exists j :: 0 <= j < i && Carries(d, p, run, j, k)
  {
    if i > 0 {
      var q := Trace(d, p, run)[i - 1];
      TraceStep(d, p, run, i - 1);
      SoundAlong(d, p, run, i - 1);
      MoveConsumes(d, q, run[i - 1], k);
      if k < |q.net.checks| && q.net.checks[k].consumed {
        ConsumedHasCarrier(d, p, run, i - 1, k);
      } else {
        assert Carries(d, p, run, i - 1, k);
      }
    }
  }

  /** Only a real action carrying a check consumes it. */
  lemma MoveConsumes<S>(d: Domain<S>, p: Point<S>, mv: Move<S>, k: nat)
    requires Valid(p.net) && Can(d, p, mv)
    requires k < |Next(d, p, mv).net.checks| && Next(d, p, mv).net.checks[k].consumed
    ensures || (k < |p.net.checks| && p.net.checks[k].consumed)
            || (mv.Act? && IsReal(d, p.net, mv.t) && k in p.net.tasks[mv.t].checks)
  {
    if mv.Act? {
      AfterActShape(d, p.net, mv.t);
    }
  }

  /** AtStart: the first real action that carries a method's check runs in a state where the
      method's precondition holds. */
  lemma AtStartHolds<S>(d: Domain<S>, p: Point<S>, run: seq<Move<S>>, i: nat, k: nat)
    requires d.mode != Compiled && LoaderShapes(d) && Fresh(p.net) && IsRun(d, p, run) && i < |run|
    requires FirstCarrier(d, p, run, i, k)
    ensures k < |Trace(d, p, run)[i].net.checks| && CheckHolds(d, Trace(d, p, run)[i], k)
  {
    var q := Trace(d, p, run)[i];
    TraceStep(d, p, run, i);
    SoundAlong(d, p, run, i);
    var own := q.net.tasks[run[i].t].checks;
    SkipIsJustified(d, q, own);
    if q.net.checks[k].consumed {
      ConsumedHasCarrier(d, p, run, i, k);
    }
  }

  /** From network `a` to a later `b`, check `k` keeps its definition, stays established, and is
      live only if it was. */
  ghost predicate Persists(a: Net, b: Net, k: nat) {
    && k < |a.checks| && k < |b.checks|
    && b.checks[k].action == a.checks[k].action && b.checks[k].args == a.checks[k].args
    && (a.checks[k].established ==> b.checks[k].established)
    && (Live(b, k) ==> Live(a, k))
  }

  lemma PersistsTrans(a: Net, b: Net, c: Net, k: nat)
    requires Persists(a, b, k) && Persists(b, c, k)
    ensures Persists(a, c, k)
  {
  }

  lemma {:induction false} CheckPersists<S>(d: Domain<S>, p: Point<S>, run: seq<Move<S>>, i: nat, j: nat, k: nat)
    requires d.mode != Compiled && LoaderShapes(d) && Fresh(p.net) && IsRun(d, p, run) && i <= j <= |run|
    requires k < |Trace(d, p, run)[i].net.checks|
    ensures Persists(Trace(d, p, run)[i].net, Trace(d, p, run)[j].net, k)
    decreases j - i
  {
    if i < j {
      var tr := Trace(d, p, run);
      CheckPersists(d, p, run, i, j - 1, k);
      TraceStep(d, p, run, j - 1);
      SoundAlong(d, p, run, j - 1);
      MovePersists(d, tr[j - 1], run[j - 1], k);
      PersistsTrans(tr[i].net, tr[j - 1].net, tr[j].net, k);
    }
  }

  lemma MovePersists<S>(d: Domain<S>, p: Point<S>, mv: Move<S>, k: nat)
    requires Valid(p.net) && Can(d, p, mv) && k < |p.net.checks|
    ensures Persists(p.net, Next(d, p, mv).net, k)
  {
    var q := Next(d, p, mv);
    match mv
    case Act(t, to) =>
      AfterActShape(d, p.net, t);
      if Live(q.net, k) { AfterActLive(d, p.net, t, k); }
    case Decompose(t, mi, b) =>
      if Live(q.net, k) { GroundLive(d.mode, p.net, t, d.methods[p.net.tasks[t].head][mi].body, b, k); }
  }

  /** Protected: the precondition holds in every state from its early check to the first real action
      that carries it. */
  lemma ProtectedHolds<S>(d: Domain<S>, p: Point<S>, run: seq<Move<S>>, e: nat, i: nat, k: nat, j: nat)
    requires d.mode == Protected && LoaderShapes(d) && Fresh(p.net) && IsRun(d, p, run) && e < i < |run|
    requires Establishes(d, p, run, e, k) && FirstCarrier(d, p, run, i, k)
    requires e <= j <= i
    ensures k < |Trace(d, p, run)[j].net.checks| && CheckHolds(d, Trace(d, p, run)[j], k)
  {
    var tr := Trace(d, p, run);
    SoundAlong(d, p, run, e);
    TraceStep(d, p, run, e);
    assert CheckHolds(d, tr[e], k);
    if e < j {
      AfterActShape(d, tr[e].net, run[e].t);
      assert tr[e + 1].net.checks[k].established;
      CheckPersists(d, p, run, e + 1, j, k);
      CheckPersists(d, p, run, j, i, k);
      TraceStep(d, p, run, i);
      assert Live(tr[i].net, k);
      SoundAlong(d, p, run, j);
      if tr[j].net.checks[k].consumed {
        ConsumedHasCarrier(d, p, run, j, k);
      }
    }
  }

  // ----- The early check comes first -----

  /** The task that establishes check `k` is ordered before every other that carries it. */
  ghost predicate Leads<S>(d: Domain<S>, n: Net, k: nat, j: nat) {
    && j in n.tasks && n.tasks[j].establishes ==
        Some(k) && n.tasks[j].head in d.actions && d.actions[n.tasks[j].head].artificial
    && forall x <- n.tasks :: k in n.tasks[x].checks && x != j ==> (j, x) in n.edges
  }

  /** Every check is established, or is still to be, before anything else that carries it. */
  ghost predicate Ahead<S>(d: Domain<S>, n: Net) {
    forall k :: 0 <= k < |n.checks| ==> n.checks[k].established || exists j :: Leads(d, n, k, j)
  }

  lemma ActKeepsAhead<S>(d: Domain<S>, p: Point<S>, t: nat, to: S)
    requires d.mode != Compiled && Sound(d, p) && Ahead(d, p.net) && Can(d, p, Act(t, to))
    ensures Ahead(d, Next(d, p, Act(t, to)).net)
  {
    var n, q := p.net, Next(d, p, Act(t, to)).net;
    AfterActShape(d, n, t);
    AfterActEdges(d, n, t);
    forall k | 0 <= k < |q.checks| && !q.checks[k].established
      ensures exists j :: Leads(d, q, k, j)
    {
      assert !n.checks[k].established;
      var j :| Leads(d, n, k, j);
      assert j != t;
      assert Leads(d, q, k, j);
    }
  }

  lemma DecomposeKeepsAhead<S>(d: Domain<S>, p: Point<S>, t: nat, mi: nat, b: Binding)
    requires d.mode != Compiled && LoaderShapes(d) && Sound(d, p) && Ahead(d, p.net) && Can(d, p, Decompose(t, mi, b))
    ensures Ahead(d, Next(d, p, Decompose(t, mi, b)).net)
  {
    var n, q, m := p.net, Next(d, p, Decompose(t, mi, b)).net, d.methods[p.net.tasks[t].head][mi].body;
    forall k | 0 <= k < |q.checks| && !q.checks[k].established
      ensures exists j :: Leads(d, q, k, j)
    {
      if k < |n.checks| {
        var j :| Leads(d, n, k, j);
        OldLeads(d, n, t, m, b, k, j);
      } else {
        NewLeads(d, n, t, m, b);
      }
    }
  }

  lemma OldLeads<S>(d: Domain<S>, n: Net, t: nat, m: Body, b: Binding, k: nat, j: nat)
    requires d.mode != Compiled && Valid(n) && Compound(d, n, t) && k < |n.checks| && Leads(d, n, k, j)
    ensures Leads(d, Ground(d.mode, n, t, m, b), k, j)
  {
    var q := Ground(d.mode, n, t, m, b);
    assert k !in n.tasks[t].checks;
    forall x | x in q.tasks && k in q.tasks[x].checks && x != j
      ensures (j, x) in q.edges
    {
      GroundTask(d.mode, n, t, m, b, x);
      GroundEdge(d.mode, n, t, m, b, j, x);
    }
  }

  lemma NewLeads<S>(d: Domain<S>, n: Net, t: nat, m: Body, b: Binding)
    requires d.mode != Compiled && Valid(n) && t in n.tasks && LoaderShape(d, m) && HasPre(m)
    ensures Leads(d, Ground(d.mode, n, t, m, b), |n.checks|, n.next + PreIndex(m))
  {
    var q, j := Ground(d.mode, n, t, m, b), n.next + PreIndex(m);
    assert q.tasks[j] == SubTask(d.mode, n, t, m, b, j);
    forall x | x in q.tasks && |n.checks| in q.tasks[x].checks && x != j
      ensures (j, x) in q.edges
    {
      GroundTask(d.mode, n, t, m, b, x);
      GroundEdge(d.mode, n, t, m, b, j, x);
    }
  }

  lemma {:induction false} AheadAlong<S>(d: Domain<S>, p: Point<S>, run: seq<Move<S>>, i: nat)
    requires d.mode != Compiled && LoaderShapes(d) && Fresh(p.net) && IsRun(d, p, run) && i <= |run|
    ensures Ahead(d, Trace(d, p, run)[i].net)
  {
    if i > 0 {
      var q := Trace(d, p, run)[i - 1];
      AheadAlong(d, p, run, i - 1);
      SoundAlong(d, p, run, i - 1);
      TraceStep(d, p, run, i - 1);
      match run[i - 1]
      case Act(t, to) => ActKeepsAhead(d, q, t, to);
      case Decompose(t, mi, b) => DecomposeKeepsAhead(d, q, t, mi, b);
    }
  }

  /** An established check was established by some earlier step. */
  lemma {:induction false} EstablishedHasCheck<S>(d: Domain<S>, p: Point<S>, run: seq<Move<S>>, i: nat, k: nat)
      returns (e: nat)
    requires d.mode != Compiled && LoaderShapes(d) && Fresh(p.net) && IsRun(d, p, run) && i <= |run|
    requires k < |Trace(d, p, run)[i].net.checks| && Trace(d, p, run)[i].net.checks[k].established
    ensures e < i && Establishes(d, p, run, e, k)
  {
    var q := Trace(d, p, run)[i - 1];
    TraceStep(d, p, run, i - 1);
    SoundAlong(d, p, run, i - 1);
    if k < |q.net.checks| && q.net.checks[k].established {
      e := EstablishedHasCheck(d, p, run, i - 1, k);
    } else {
      e := i - 1;
      EstablishedNow(d, q, run[i - 1], k);
    }
  }

  lemma EstablishedNow<S>(d: Domain<S>, p: Point<S>, mv: Move<S>, k: nat)
    requires Valid(p.net) && Can(d, p, mv) && !(k < |p.net.checks| && p.net.checks[k].established)
    requires k < |Next(d, p, mv).net.checks| && Next(d, p, mv).net.checks[k].established
    ensures mv.Act? && p.net.tasks[mv.t].establishes == Some(k)
  {
    if mv.Act? {
      AfterActShape(d, p.net, mv.t);
    }
  }

  /** A real action that may run carries only checks established already. */
  lemma CarrierEstablished<S>(d: Domain<S>, n: Net, t: nat, k: nat)
    requires Ahead(d, n) && Primitive(d, n, t) && IsReal(d, n, t) && k in n.tasks[t].checks && k < |n.checks|
    ensures n.checks[k].established
  {
    assert forall j :: Leads(d, n, k, j) ==> j == t || (j, t) in n.edges;
  }

  /** Protected, of every run: the first real action that carries a method's check comes after an early
      check of it, and from there to that action the precondition holds in every state. */
  lemma ProtectedThroughout<S>(d: Domain<S>, p: Point<S>, run: seq<Move<S>>, i: nat, k: nat) returns (e: nat)
    requires d.mode == Protected && LoaderShapes(d) && Fresh(p.net) && IsRun(d, p, run) && i < |run|
    requires FirstCarrier(d, p, run, i, k)
    ensures e < i && Establishes(d, p, run, e, k)
    ensures forall j :: e <= j <= i ==> k < |Trace(d, p, run)[j].net.checks| && CheckHolds(d, Trace(d, p, run)[j], k)
  {
    var q := Trace(d, p, run)[i];
    AheadAlong(d, p, run, i);
    SoundAlong(d, p, run, i);
    TraceStep(d, p, run, i);
    CarrierEstablished(d, q.net, run[i].t, k);
    e := EstablishedHasCheck(d, p, run, i, k);
    forall j | e <= j <= i
      ensures k < |Trace(d, p, run)[j].net.checks| && CheckHolds(d, Trace(d, p, run)[j], k)
    {
      ProtectedHolds(d, p, run, e, i, k, j);
    }
  }
}
