/** Progression: the steps a search takes from a state and a task network, in all three
    precondition modes, and what it means for a network to be solvable (lib/cpphop/cppMCTShop.h).
    A state is of any type: what the planner needs of it are the queries a domain answers. */
module Progression {
  import opened Basics
  import opened Networks

  /** An action. `holds` answers a synthesised check, `succ` lists the successor states. */
  datatype Action<!S> = Action(arity: nat, artificial: bool,
                               holds: (S, Args) -> bool, succ: (S, Args) -> seq<S>)

  datatype Method<!S> = Method(name: string, arity: nat, body: Body,
                               bindings: (S, Args) -> seq<Binding>)

  /** A step of a plan: the action, its arguments and the id of the task it carried out. */
  datatype Step = Step(head: string, args: Args, id: nat)

  datatype Domain<!S> = Domain(actions: map<string, Action<S>>, methods: map<string, seq<Method<S>>>,
                               mode: Mode, score: (S, seq<Step>) -> real)

  /** The arity test that raises an error: no arguments at all is accepted. */
  predicate ArityOk(arity: nat, args: Args) {
    args == [] || |args| == arity
  }

  /** An action's successor states: a synthesised check passes the state through. */
  function Apply<S>(a: Action<S>, s: S, args: Args): seq<S> {
    if a.artificial then (if a.holds(s, args) then [s] else []) else a.succ(s, args)
  }

  predicate Holds<S>(d: Domain<S>, s: S, action: string, args: Args) {
    action in d.actions && d.actions[action].holds(s, args)
  }

  // ----- Method preconditions outside Compiled mode -----

  /** Must check `k` be evaluated now? Not if consumed, nor if it passed at this very step. */
  predicate Due(n: Net, k: nat)
    requires k < |n.checks|
  {
    var c := n.checks[k];
    !c.consumed && !(c.established && c.at == n.step)
  }

  ghost predicate FirstActionOk<S>(d: Domain<S>, n: Net, own: set<nat>, s: S) {
    forall k <- own :: k < |n.checks| && Due(n, k) ==> Holds(d, s, n.checks[k].action, n.checks[k].args)
  }

  /** Some remaining task carries check `k`. */
  ghost predicate Live(n: Net, k: nat) {
    exists i <- n.tasks :: k in n.tasks[i].checks
  }

  /** A causal link that is open in `n` and foreign to the tasks carrying `own`. */
  ghost predicate OpenLink(n: Net, own: set<nat>, k: nat)
    requires k < |n.checks|
  {
    Live(n, k) && n.checks[k].established && !n.checks[k].consumed && k !in own
  }

  ghost predicate LinksIntact<S>(d: Domain<S>, n: Net, own: set<nat>, s: S) {
    forall k :: 0 <= k < |n.checks| && OpenLink(n, own, k) ==> Holds(d, s, n.checks[k].action, n.checks[k].args)
  }

  function Consume(checks: seq<Check>, own: set<nat>): seq<Check> {
    seq(|checks|, k requires 0 <= k < |checks| => if k in own then checks[k].(consumed := true) else checks[k])
  }

  function Record(n: Net, isReal: bool, own: set<nat>, establishes: Option<nat>): Net {
    if isReal then n.(step := n.step + 1, checks := Consume(n.checks, own))
    else if establishes.Some? && establishes.value < |n.checks| then
      var k := establishes.value;
      n.(checks := n.checks[k := n.checks[k].(established := true, at := n.step)])
    else n
  }

  // ----- Steps -----

  ghost predicate Primitive<S>(d: Domain<S>, n: Net, t: nat) {
    Free(n, t) && n.tasks[t].head in d.actions
  }

  ghost predicate Compound<S>(d: Domain<S>, n: Net, t: nat) {
    Free(n, t) && n.tasks[t].head !in d.actions && n.tasks[t].head in d.methods
  }

  function IsReal<S>(d: Domain<S>, n: Net, t: nat): bool
    requires t in n.tasks && n.tasks[t].head in d.actions
  {
    !d.actions[n.tasks[t].head].artificial
  }

  /** The network after action task `t` has run. */
  function AfterAct<S>(d: Domain<S>, n: Net, t: nat): Net
    requires t in n.tasks && n.tasks[t].head in d.actions
  {
    var kept := RemoveTask(n, t);
    if d.mode == Compiled then kept else Record(kept, IsReal(d, n, t), n.tasks[t].checks, n.tasks[t].establishes)
  }

  function Decomposed<S>(d: Domain<S>, n: Net, t: nat, mi: nat, b: Binding): Net
    requires t in n.tasks && n.tasks[t].head in d.methods && mi < |d.methods[n.tasks[t].head]|
  {
    Ground(d.mode, n, t, d.methods[n.tasks[t].head][mi].body, b)
  }

  /** A search point. */
  datatype Point<!S> = Point(state: S, net: Net)

  /** One progression: run action task `t` into state `to`, or decompose task `t` by method
      number `mi` under `b`. */
  datatype Move<!S> = Act(t: nat, to: S) | Decompose(t: nat, mi: nat, b: Binding)

  ghost predicate CanAct<S>(d: Domain<S>, p: Point<S>, t: nat, to: S) {
    && Primitive(d, p.net, t)
    && var a := d.actions[p.net.tasks[t].head];
    && var task := p.net.tasks[t];
    && ArityOk(a.arity, task.args)
    && (d.mode != Compiled && !a.artificial ==> FirstActionOk(d, p.net, task.checks, p.state))
    && to in Apply(a, p.state, task.args)
    && (d.mode == Protected && !a.artificial ==> LinksIntact(d, AfterAct(d, p.net, t), task.checks, to))
  }

  ghost predicate CanDecompose<S>(d: Domain<S>, p: Point<S>, t: nat, mi: nat, b: Binding) {
    && Compound(d, p.net, t)
    && var ms := d.methods[p.net.tasks[t].head];
    && mi < |ms|
    && ArityOk(ms[mi].arity, p.net.tasks[t].args)
    && b in ms[mi].bindings(p.state, p.net.tasks[t].args)
  }

  ghost predicate Can<S>(d: Domain<S>, p: Point<S>, mv: Move<S>) {
    match mv
    case Act(t, to) => CanAct(d, p, t, to)
    case Decompose(t, mi, b) => CanDecompose(d, p, t, mi, b)
  }

  ghost function Next<S>(d: Domain<S>, p: Point<S>, mv: Move<S>): Point<S>
    requires Can(d, p, mv)
  {
    match mv
    case Act(t, to) => Point(to, AfterAct(d, p.net, t))
    case Decompose(t, mi, b) => Point(p.state, Decomposed(d, p.net, t, mi, b))
  }

  lemma AfterActShape<S>(d: Domain<S>, n: Net, t: nat)
    requires Valid(n) && t in n.tasks && n.tasks[t].head in d.actions
    ensures Valid(AfterAct(d, n, t))
    ensures AfterAct(d, n, t).tasks == n.tasks - {t}
    ensures AfterAct(d, n, t).next == n.next
    ensures |AfterAct(d, n, t).checks| == |n.checks|
  {
  }

  lemma AfterActEdges<S>(d: Domain<S>, n: Net, t: nat)
    requires t in n.tasks && n.tasks[t].head in d.actions
    ensures forall i, j :: (i, j) in AfterAct(d, n, t).edges <==> (i, j) in n.edges && i != t && j != t
  {
  }

  // ----- Runs -----

  ghost predicate IsRun<S>(d: Domain<S>, p: Point<S>, run: seq<Move<S>>)
    decreases |run|
  {
    run == [] || (Can(d, p, run[0]) && IsRun(d, Next(d, p, run[0]), run[1..]))
  }

  ghost function End<S>(d: Domain<S>, p: Point<S>, run: seq<Move<S>>): Point<S>
    requires IsRun(d, p, run)
    decreases |run|
  {
    if run == [] then p else End(d, Next(d, p, run[0]), run[1..])
  }

  /** The run carries every task out. */
  ghost predicate Solves<S>(d: Domain<S>, p: Point<S>, run: seq<Move<S>>) {
    IsRun(d, p, run) && End(d, p, run).net.tasks == map[]
  }

  ghost predicate Solvable<S(!new)>(d: Domain<S>, p: Point<S>) {
    exists run :: Solves(d, p, run)
  }

  lemma NextValid<S>(d: Domain<S>, p: Point<S>, mv: Move<S>)
    requires Valid(p.net) && Can(d, p, mv)
    ensures Valid(Next(d, p, mv).net)
  {
    match mv
    case Act(t, to) =>
    case Decompose(t, mi, b) => GroundValid(d.mode, p.net, t, d.methods[p.net.tasks[t].head][mi].body, b);
  }

  lemma SolvesCons<S>(d: Domain<S>, p: Point<S>, mv: Move<S>, run: seq<Move<S>>)
    requires Can(d, p, mv) && Solves(d, Next(d, p, mv), run)
    ensures Solves(d, p, [mv] + run)
  {
    assert ([mv] + run)[1..] == run;
  }

  /** A point with tasks left is solvable exactly when some move from it leads to a solvable one. */
  lemma SolvableByMove<S(!new)>(d: Domain<S>, p: Point<S>)
    requires p.net.tasks != map[]
    ensures Solvable(d, p) <==> exists mv :: Can(d, p, mv) && Solvable(d, Next(d, p, mv))
  {
    if Solvable(d, p) {
      var run :| Solves(d, p, run);
      assert Solves(d, Next(d, p, run[0]), run[1..]);
    }
    if mv :| Can(d, p, mv) && Solvable(d, Next(d, p, mv)) {
      var run :| Solves(d, Next(d, p, mv), run);
      SolvesCons(d, p, mv, run);
    }
  }
}
