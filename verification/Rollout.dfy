/** The randomised depth-first dive of lib/cpphop/cppMCTShop.h, `simulation`. Shuffles and random
    picks are arbitrary: a caller of `Shuffle` and `Pick` knows only what they promise. */
module Rollout {
  import opened Basics
  import opened Networks
  import opened Progression
  import opened Completeness

  /** Why a rollout stopped. `Thrown` is the C++ exception for a task that is neither an action nor
      compound, or one called with the wrong number of arguments. */
  datatype Outcome = Solved(score: real) | Refuted | Cutoff | Thrown

  ghost predicate LoaderShapes<S>(d: Domain<S>) {
    forall h <- d.methods, mi: nat :: mi < |d.methods[h]| ==> LoaderShape(d, d.methods[h][mi].body)
  }

  /** The plan a run carries out: its real actions, in order. */
  ghost function PlanOf<S>(d: Domain<S>, p: Point<S>, run: seq<Move<S>>): seq<Step>
    requires IsRun(d, p, run)
    decreases |run|
  {
    if run == [] then []
    else StepOf(d, p, run[0]) + PlanOf(d, Next(d, p, run[0]), run[1..])
  }

  ghost function StepOf<S>(d: Domain<S>, p: Point<S>, mv: Move<S>): seq<Step>
    requires Can(d, p, mv)
  {
    if mv.Act? && IsReal(d, p.net, mv.t) then [PlanStep(p.net, mv.t)] else []
  }

  function PlanStep(n: Net, t: nat): Step
    requires t in n.tasks
  {
    Step(n.tasks[t].head, n.tasks[t].args, t)
  }

  /** What a solved rollout reports: a run within the budget, scored where it ends. */
  ghost predicate Witness<S>(d: Domain<S>, p: Point<S>, run: seq<Move<S>>, budget: int, plan: seq<Step>, score: real) {
    && Solves(d, p, run) && (run == [] || |run| <= budget)
    && score == d.score(End(d, p, run).state, plan + PlanOf(d, p, run))
  }

  lemma PlanCons<S>(d: Domain<S>, p: Point<S>, mv: Move<S>, run: seq<Move<S>>)
    requires Can(d, p, mv) && IsRun(d, Next(d, p, mv), run)
    ensures IsRun(d, p, [mv] + run) && End(d, p, [mv] + run) == End(d, Next(d, p, mv), run)
    ensures PlanOf(d, p, [mv] + run) == StepOf(d, p, mv) + PlanOf(d, Next(d, p, mv), run)
  {
    hide Can, Next, StepOf;
    var whole := [mv] + run;
    assert whole[0] == mv && whole[1..] == run;
  }

  lemma WitnessCons<S>(d: Domain<S>, p: Point<S>, mv: Move<S>, run: seq<Move<S>>, budget: int, plan: seq<Step>,
        score: real)
    requires Can(d, p, mv) && budget > 0
    requires Witness(d, Next(d, p, mv), run, budget - 1, plan + StepOf(d, p, mv), score)
    ensures Witness(d, p, [mv] + run, budget, plan, score)
  {
    hide Can, Next, StepOf, PlanOf, IsRun, End;
    PlanCons(d, p, mv, run);
    assert plan + (StepOf(d, p, mv) + PlanOf(d, Next(d, p, mv), run)) ==
      plan + StepOf(d, p, mv) + PlanOf(d, Next(d, p, mv), run);
  }

  /** What a rollout cut short met: a run as long as the budget, with tasks left at its end. */
  ghost predicate CutShort<S>(d: Domain<S>, p: Point<S>, run: seq<Move<S>>, budget: int) {
    IsRun(d, p, run) && |run| == (if budget > 0 then budget else 0) && End(d, p, run).net.tasks != map[]
  }

  lemma CutShortCons<S>(d: Domain<S>, p: Point<S>, mv: Move<S>, run: seq<Move<S>>, budget: int)
    requires Can(d, p, mv) && budget > 0 && CutShort(d, Next(d, p, mv), run, budget - 1)
    ensures CutShort(d, p, [mv] + run, budget)
  {
    assert ([mv] + run)[1..] == run;
  }

  /** A task the code throws at: neither an action nor compound, or with a wrong number of arguments. */
  ghost predicate Misfit<S>(d: Domain<S>, n: Net, t: nat) {
    Free(n, t) &&
    var task := n.tasks[t];
    if task.head in d.actions then !ArityOk(d.actions[task.head].arity, task.args)
    else task.head in d.methods ==> exists m <- d.methods[task.head] :: !ArityOk(m.arity, task.args)
  }

  ghost predicate HasMisfit<S>(d: Domain<S>, n: Net) {
    exists t :: Misfit(d, n, t)
  }

  /** What a rollout that throws met: a run to a network with such a task free. */
  ghost predicate Trapped<S>(d: Domain<S>, p: Point<S>, run: seq<Move<S>>) {
    IsRun(d, p, run) && HasMisfit(d, End(d, p, run).net)
  }

  /** A run from here can be thrown at. */
  ghost predicate Faulty<S(!new)>(d: Domain<S>, p: Point<S>) {
    exists run :: Trapped(d, p, run)
  }

  lemma MisfitIsFault<S(!new)>(d: Domain<S>, p: Point<S>)
    requires HasMisfit(d, p.net)
    ensures Faulty(d, p)
  {
    assert Trapped(d, p, []);
  }

  lemma TrappedHere<S>(d: Domain<S>, restrict: int, p: Point<S>)
    requires HasMisfit(d, p.net)
    ensures Trapped(d, p, []) && Follows(d, restrict, p, [])
  {
  }

  lemma FaultFrom<S(!new)>(d: Domain<S>, p: Point<S>, mv: Move<S>)
    requires Can(d, p, mv) && Faulty(d, Next(d, p, mv))
    ensures Faulty(d, p)
  {
    var run :| Trapped(d, Next(d, p, mv), run);
    TrappedCons(d, p, mv, run);
  }

  lemma TrappedCons<S>(d: Domain<S>, p: Point<S>, mv: Move<S>, run: seq<Move<S>>)
    requires Can(d, p, mv) && Trapped(d, Next(d, p, mv), run)
    ensures Trapped(d, p, [mv] + run)
  {
    assert ([mv] + run)[1..] == run;
  }

  /** The tasks a restriction lets a rollout progress: all free ones; or actions and the first free
      compound task (1), or any one (2), or any one and no action while there is one (3). */
  ghost predicate Open<S>(d: Domain<S>, n: Net, restrict: int, t: nat) {
    || (Primitive(d, n, t) && (restrict == 3 ==> forall c :: !Compound(d, n, c)))
    || (Compound(d, n, t) && (restrict != 0 && restrict != 2 && restrict != 3 ==>
                                forall c :: Compound(d, n, c) ==> t <= c))
  }

  /** A run that keeps to the restriction at every step. */
  ghost predicate Follows<S>(d: Domain<S>, restrict: int, p: Point<S>, run: seq<Move<S>>)
    decreases |run|
  {
    run == [] ||
    (Can(d, p, run[0]) && Open(d, p.net, restrict, run[0].t) && Follows(d, restrict, Next(d, p, run[0]), run[1..]))
  }

  lemma FollowsCons<S>(d: Domain<S>, restrict: int, p: Point<S>, mv: Move<S>, run: seq<Move<S>>)
    requires Can(d, p, mv) && Open(d, p.net, restrict, mv.t) && Follows(d, restrict, Next(d, p, mv), run)
    ensures Follows(d, restrict, p, [mv] + run)
  {
    assert ([mv] + run)[1..] == run;
  }

  /** All the tasks the restriction allows, but a single compound one where it takes one. */
  ghost predicate Narrowed<S>(d: Domain<S>, n: Net, restrict: int, u: seq<nat>) {
    && (forall t <- u :: Open(d, n, restrict, t))
    && (forall t :: Primitive(d, n, t) && Open(d, n, restrict, t) ==> t in u)
    && (restrict == 0 ==> forall t :: Compound(d, n, t) ==> t in u)
    && (restrict != 0 ==> forall t, c :: t in u && c in u && Compound(d, n, t) && Compound(d, n, c) ==> t == c)
    && forall c :: Compound(d, n, c) ==> exists t <- u :: Compound(d, n, t)
  }

  method Shuffle<T(==)>(s: seq<T>) returns (t: seq<T>)
    ensures multiset(t) == multiset(s)
    ensures |t| == |s| && forall x :: x in t <==> x in s
  {
    t := s;
  }

  method Pick<T>(s: seq<T>) returns (x: T)
    requires s != []
    ensures x in s
  {
    var i :| 0 <= i < |s|;
    x := s[i];
  }

  method Least(s: seq<nat>) returns (x: nat)
    requires s != []
    ensures x in s && forall y <- s :: x <= y
  {
    x := s[0];
    for i := 1 to |s|
      invariant x in s && forall j :: 0 <= j < i ==> x <= s[j]
    {
      if s[i] < x { x := s[i]; }
    }
  }

  /** The free tasks of a network, primitive and compound, or that one of them is neither. */
  method FreeTasks<S>(d: Domain<S>, n: Net) returns (primitive: seq<nat>, compound: seq<nat>, ok: bool)
    ensures forall t <- primitive :: Primitive(d, n, t)
    ensures forall t <- compound :: Compound(d, n, t)
    ensures ok ==> forall t :: Free(n, t) ==> t in primitive || t in compound
    ensures !ok ==> exists t :: Free(n, t) && !Primitive(d, n, t) && !Compound(d, n, t)
  {
    primitive, compound := [], [];
    var todo := n.tasks.Keys;
    while todo != {}
      invariant todo <= n.tasks.Keys
      invariant forall t <- primitive :: Primitive(d, n, t)
      invariant forall t <- compound :: Compound(d, n, t)
      invariant forall t :: Free(n, t) ==> t in todo || t in primitive || t in compound
    {
      var t :| t in todo;
      todo := todo - {t};
      if forall e | e in n.edges :: e.1 != t {
        FreeByEdges(n, t);
        if n.tasks[t].head in d.actions {
          primitive := primitive + [t];
        } else if n.tasks[t].head in d.methods {
          compound := compound + [t];
        } else {
          return primitive, compound, false;
        }
      }
    }
    ok := true;
  }

  lemma FreeByEdges(n: Net, t: nat)
    requires t in n.tasks && forall e | e in n.edges :: e.1 != t
    ensures Free(n, t)
  {
    forall x: nat
      ensures (x, t) !in n.edges
    {
      assert (x, t).1 == t;
    }
  }

  /** `first_action_ok`: skips a check that is consumed, or that passed at this very step. */
  method FirstActionHolds<S>(d: Domain<S>, n: Net, own: set<nat>, s: S) returns (ok: bool)
    requires forall k <- own :: k < |n.checks|
    ensures ok <==> FirstActionOk(d, n, own, s)
  {
    var todo := own;
    while todo != {}
      invariant todo <= own
      invariant forall k <- own :: k in todo || (Due(n, k) ==> Holds(d, s, n.checks[k].action, n.checks[k].args))
    {
      var k :| k in todo;
      todo := todo - {k};
      var c := n.checks[k];
      if c.consumed {
        continue;
      }
      if c.established && c.at == n.step {
        continue;
      }
      if !Holds(d, s, c.action, c.args) {
        return false;
      }
    }
    ok := true;
  }

  /** `links_intact`: every open causal link the action is foreign to still holds. */
  method LinksHold<S>(d: Domain<S>, n: Net, own: set<nat>, s: S) returns (ok: bool)
    ensures ok <==> LinksIntact(d, n, own, s)
  {
    if |n.checks| == 0 {
      return true;
    }
    for k := 0 to |n.checks|
      invariant forall j :: 0 <= j < k && OpenLink(n, own, j) ==> Holds(d, s, n.checks[j].action, n.checks[j].args)
    {
      var c := n.checks[k];
      var live := exists i | i in n.tasks :: k in n.tasks[i].checks;
      if !live || !c.established || c.consumed {
        continue;
      }
      if k in own {
        continue;
      }
      if !Holds(d, s, c.action, c.args) {
        return false;
      }
    }
    ok := true;
  }

  class Simulator<S(!new)> {
    const d: Domain<S>
    /** 0 takes every free task; 1, 2 and 3 take one compound task, 3 without the actions. */
    const restrictCompound: int
    const lookahead: bool
    /** The plan so far, pushed and popped in place. */
    var plan: seq<Step>

    constructor (d: Domain<S>, restrictCompound: int, lookahead: bool, plan: seq<Step>)
      ensures this.d == d && this.restrictCompound == restrictCompound && this.lookahead == lookahead
      ensures this.plan == plan
    {
      this.d, this.restrictCompound, this.lookahead, this.plan := d, restrictCompound, lookahead, plan;
    }

    /** What the code relies on: bindings that no action changes, where one compound task stands
        for all; and the loader's shape of methods, where look-ahead prunes. */
    ghost predicate Trusted()
    {
      (restrictCompound != 0 ==> StableBindings(d)) && (lookahead ==> LoaderShapes(d))
    }

    method Simulate(p: Point<S>, budget: int) returns (r: Outcome, ghost run: seq<Move<S>>)
      requires Valid(p.net) && Trusted()
      modifies this
      ensures !r.Thrown? ==> plan == old(plan)
      ensures r.Solved? ==> Witness(d, p, run, budget, old(plan), r.score)
      ensures r.Cutoff? ==> CutShort(d, p, run, budget)
      ensures r.Thrown? ==> Trapped(d, p, run)
      ensures !r.Refuted? ==> Follows(d, restrictCompound, p, run)
      ensures r.Refuted? ==> !Solvable(d, p)
      decreases if budget > 0 then budget else 0, 5
    {
      run := [];
      if p.net.tasks == map[] {
        assert plan + PlanOf(d, p, []) == plan;
        return Solved(d.score(p.state, plan)), [];
      }
      if budget <= 0 {
        return Cutoff, [];
      }
      var u, free, ok := Candidates(p);
      if !ok {
        return Thrown, [];
      }
      if u == [] {
        NoFreeTask(d, p);
        return Refuted, [];
      }
      u := Shuffle(u);
      for i := 0 to |u|
        invariant plan == old(plan)
        invariant forall j :: 0 <= j < i ==> Exhausted(d, p, u[j])
      {
        r, run := TryTask(p, u[i], free, budget);
        if !r.Refuted? {
          return;
        }
      }
      assert forall t <- u :: Exhausted(d, p, t);
      AllExhausted(d, p, u);
      r := Refuted;
    }

    /** The tasks the rollout branches over, and how many were free before they were narrowed. */
    method Candidates(p: Point<S>) returns (u: seq<nat>, free: nat, ok: bool)
      requires Valid(p.net) && Trusted()
      ensures ok ==> forall t <- u :: Primitive(d, p.net, t) || Compound(d, p.net, t)
      ensures ok && free == 1 ==> forall t <- u :: forall x :: Free(p.net, x) ==> x == t
      ensures ok ==> Decisive(d, p, u) && Narrowed(d, p.net, restrictCompound, u)
      ensures ok && u == [] ==> forall t :: !Free(p.net, t)
      ensures !ok ==> HasMisfit(d, p.net)
    {
      var compound;
      u, compound, ok := FreeTasks(d, p.net);
      if !ok {
        ghost var t :| Free(p.net, t) && !Primitive(d, p.net, t) && !Compound(d, p.net, t);
        assert Misfit(d, p.net, t);
        return u, 0, false;
      }
      free := |u| + |compound|;
      if restrictCompound == 0 {
        u := u + compound;
      } else if compound != [] {
        if restrictCompound == 3 {
          var c := Pick(compound);
          u := [c];
        } else if restrictCompound == 2 {
          var c := Pick(compound);
          u := u + [c];
        } else {
          var c := Least(compound);
          u := u + [c];
        }
      }
    }

    method TryTask(p: Point<S>, t: nat, free: nat, budget: int) returns (r: Outcome, ghost run: seq<Move<S>>)
      requires Valid(p.net) && Trusted() && budget > 0
      requires Primitive(d, p.net, t) || Compound(d, p.net, t)
      requires Open(d, p.net, restrictCompound, t)
      requires free == 1 ==> forall x :: Free(p.net, x) ==> x == t
      modifies this
      ensures !r.Thrown? ==> plan == old(plan)
      ensures r.Solved? ==> Witness(d, p, run, budget, old(plan), r.score)
      ensures r.Cutoff? ==> CutShort(d, p, run, budget)
      ensures r.Thrown? ==> Trapped(d, p, run)
      ensures !r.Refuted? ==> Follows(d, restrictCompound, p, run)
      ensures r.Refuted? ==> Exhausted(d, p, t)
      decreases budget, 4
    {
      if p.net.tasks[t].head in d.actions {
        r, run := TryAction(p, t, budget);
      } else {
        r, run := TryMethods(p, t, free, budget);
      }
    }

    method TryAction(p: Point<S>, t: nat, budget: int) returns (r: Outcome, ghost run: seq<Move<S>>)
      requires Valid(p.net) && Trusted() && Primitive(d, p.net, t) && budget > 0
      requires Open(d, p.net, restrictCompound, t)
      modifies this
      ensures !r.Thrown? ==> plan == old(plan)
      ensures r.Solved? ==> Witness(d, p, run, budget, old(plan), r.score)
      ensures r.Cutoff? ==> CutShort(d, p, run, budget)
      ensures r.Thrown? ==> Trapped(d, p, run)
      ensures !r.Refuted? ==> Follows(d, restrictCompound, p, run)
      ensures r.Refuted? ==> Exhausted(d, p, t)
      decreases budget, 2
    {
      hide AfterAct, Witness, CutShort, Solvable, LinksIntact, FirstActionOk, Open;
      run := [];
      var task := p.net.tasks[t];
      var a := d.actions[task.head];
      var isReal := !a.artificial;
      if d.mode != Compiled && isReal {
        var ok := FirstActionHolds(d, p.net, task.checks, p.state);
        if !ok {
          return Refuted, [];
        }
      }
      if !ArityOk(a.arity, task.args) {
        assert Misfit(d, p.net, t);
        return Thrown, [];
      }
      var states := Apply(a, p.state, task.args);
      var after := AfterAct(d, p.net, t);
      AfterActShape(d, p.net, t);
      for i := 0 to |states|
        invariant plan == old(plan)
        invariant forall j :: 0 <= j < i && CanAct(d, p, t, states[j]) ==> !Solvable(d, Point(states[j], after))
      {
        var to := states[i];
        if d.mode == Protected && isReal {
          var ok := LinksHold(d, after, task.checks, to);
          if !ok {
            continue;
          }
        }
        assert Can(d, p, Act(t, to));
        if isReal {
          plan := plan + [PlanStep(p.net, t)];
        }
        assert plan == old(plan) + StepOf(d, p, Act(t, to));
        r, run := Simulate(Point(to, after), budget - 1);
        if r.Thrown? {
          TrappedCons(d, p, Act(t, to), run);
          FollowsCons(d, restrictCompound, p, Act(t, to), run);
          run := [Act(t, to)] + run;
          return;
        }
        if isReal {
          plan := plan[..|plan| - 1];
        }
        if r.Solved? {
          WitnessCons(d, p, Act(t, to), run, budget, old(plan), r.score);
          FollowsCons(d, restrictCompound, p, Act(t, to), run);
          run := [Act(t, to)] + run;
          return;
        }
        if r.Cutoff? {
          CutShortCons(d, p, Act(t, to), run, budget);
          FollowsCons(d, restrictCompound, p, Act(t, to), run);
          run := [Act(t, to)] + run;
          return;
        }
      }
      r := Refuted;
    }

    method TryMethods(p: Point<S>, t: nat, free: nat, budget: int) returns (r: Outcome, ghost run: seq<Move<S>>)
      requires Valid(p.net) && Trusted() && Compound(d, p.net, t) && budget > 0
      requires Open(d, p.net, restrictCompound, t)
      requires free == 1 ==> forall x :: Free(p.net, x) ==> x == t
      modifies this
      ensures !r.Thrown? ==> plan == old(plan)
      ensures r.Solved? ==> Witness(d, p, run, budget, old(plan), r.score)
      ensures r.Cutoff? ==> CutShort(d, p, run, budget)
      ensures r.Thrown? ==> Trapped(d, p, run)
      ensures !r.Refuted? ==> Follows(d, restrictCompound, p, run)
      ensures r.Refuted? ==> Exhausted(d, p, t)
      decreases budget, 3
    {
      run := [];
      var methods := d.methods[p.net.tasks[t].head];
      var indices: seq<nat> := seq(|methods|, i => i);
      var order := Shuffle(indices);
      for i := 0 to |order|
        invariant plan == old(plan)
        invariant forall j :: 0 <= j < i ==> MethodExhausted(d, p, t, order[j])
      {
        assert order[i] in indices;
        r, run := TryMethod(p, t, order[i], free, budget);
        if !r.Refuted? {
          return;
        }
      }
      forall mi: nat, b | CanDecompose(d, p, t, mi, b)
        ensures !Solvable(d, Next(d, p, Decompose(t, mi, b)))
      {
        assert indices[mi] == mi;
        assert mi in order;
      }
      r := Refuted;
    }

    /** One method: its bindings in a random order, those whose precondition holds now first, and
        the others dropped where failing is a proof. */
    method TryMethod(p: Point<S>, t: nat, mi: nat, free: nat, budget: int) returns (r: Outcome, ghost run: seq<Move<S>>)
      requires Valid(p.net) && Trusted() && Compound(d, p.net, t) && budget > 0
      requires Open(d, p.net, restrictCompound, t)
      requires mi < |d.methods[p.net.tasks[t].head]|
      requires free == 1 ==> forall x :: Free(p.net, x) ==> x == t
      modifies this
      ensures !r.Thrown? ==> plan == old(plan)
      ensures r.Solved? ==> Witness(d, p, run, budget, old(plan), r.score)
      ensures r.Cutoff? ==> CutShort(d, p, run, budget)
      ensures r.Thrown? ==> Trapped(d, p, run)
      ensures !r.Refuted? ==> Follows(d, restrictCompound, p, run)
      ensures r.Refuted? ==> MethodExhausted(d, p, t, mi)
      ensures lookahead && !r.Refuted? && run != [] ==>
        run[0].Decompose? && WellChosen(d, p, t, mi, run[0].b, free == 1)
      decreases budget, 2
    {
      hide LooksGood, Began, WellChosen, Witness, CutShort, Trapped, Follows, Solvable, Open;
      run := [];
      var args := p.net.tasks[t].args;
      var m := d.methods[p.net.tasks[t].head][mi];
      if !ArityOk(m.arity, args) {
        assert Misfit(d, p.net, t);
        TrappedHere(d, restrictCompound, p);
        return Thrown, [];
      }
      var bindings := m.bindings(p.state, args);
      var pick := Shuffle(seq(|bindings|, i => i));
      assert forall i :: 0 <= i < |bindings| ==> i in pick by {
        forall i | 0 <= i < |bindings| ensures i in pick {
          assert seq(|bindings|, i => i)[i] == i;
        }
      }
      assert forall i <- pick :: 0 <= i < |bindings|;
      var prune := free == 1;
      var guided := lookahead && HasPre(m.body) && (|pick| > 1 || prune);
      var deferred;
      r, run, deferred := TryPass(p, t, mi, bindings, pick, guided, prune, budget);
      if !r.Refuted? {
        FirstChosen(d, p, t, mi, bindings, pick, run, guided, lookahead, prune);
        return;
      }
      ghost var first := deferred;
      r, run, deferred := TryPass(p, t, mi, bindings, deferred, false, prune, budget);
      if !r.Refuted? {
        LaterChosen(d, p, t, mi, bindings, pick, first, run, prune);
        return;
      }
      forall b | CanDecompose(d, p, t, mi, b)
        ensures BindingDead(d, p, t, mi, b)
      {
        var i :| 0 <= i < |bindings| && bindings[i] == b;
        assert i in pick;
        assert i in first ==> BindingDead(d, p, t, mi, bindings[i]);
      }
    }

    /** One pass over some of a method's bindings. A guided pass leaves out those whose precondition
        fails now: as dead ends where that is a proof, and for the next pass otherwise. */
    method TryPass(p: Point<S>, t: nat, mi: nat, bindings: seq<Binding>, queue: seq<int>, guided: bool, prune: bool,
          budget: int)
      returns (r: Outcome, ghost run: seq<Move<S>>, deferred: seq<int>)
      requires Valid(p.net) && Trusted() && Compound(d, p.net, t) && budget > 0
      requires Open(d, p.net, restrictCompound, t)
      requires mi < |d.methods[p.net.tasks[t].head]|
      requires forall b <- bindings :: CanDecompose(d, p, t, mi, b)
      requires forall i <- queue :: 0 <= i < |bindings|
      requires guided ==> lookahead
      requires prune ==> forall x :: Free(p.net, x) ==> x == t
      modifies this
      ensures !r.Thrown? ==> plan == old(plan)
      ensures r.Solved? ==> Witness(d, p, run, budget, old(plan), r.score)
      ensures r.Cutoff? ==> CutShort(d, p, run, budget)
      ensures r.Thrown? ==> Trapped(d, p, run)
      ensures !r.Refuted? ==> Follows(d, restrictCompound, p, run)
      ensures forall i <- deferred :: i in queue
      ensures !guided ==> deferred == []
      ensures r.Refuted? ==> forall i <- queue :: i in deferred || BindingDead(d, p, t, mi, bindings[i])
      ensures forall i <- deferred :: guided && !prune && !LooksGood(d, BodyOf(d, p, t, mi), bindings[i], p.state)
      ensures !r.Refuted? ==> Began(run, t, mi, bindings, queue)
      ensures !r.Refuted? && guided ==> LooksGood(d, BodyOf(d, p, t, mi), run[0].b, p.state)
      decreases budget, 1
    {
      run := [];
      deferred := [];
      var m := d.methods[p.net.tasks[t].head][mi];
      for k := 0 to |queue|
        invariant plan == old(plan)
        invariant forall i <- deferred :: i in queue
        invariant !guided ==> deferred == []
        invariant forall i <- deferred :: guided && !prune && !LooksGood(d, BodyOf(d, p, t, mi), bindings[i], p.state)
        invariant forall j :: 0 <= j < k ==>
          0 <= queue[j] < |bindings| && (queue[j] in deferred || BindingDead(d, p, t, mi, bindings[queue[j]]))
      {
        assert queue[k] in queue;
        var b := bindings[queue[k]];
        if guided && !LooksGood(d, m.body, b, p.state) {
          if !prune {
            deferred := deferred + [queue[k]];
          } else {
            PrunedIsDead(d, p, t, mi, b);
          }
          continue;
        }
        r, run := TryBinding(p, t, mi, b, budget);
        if !r.Refuted? {
          return;
        }
      }
      r := Refuted;
    }

    method TryBinding(p: Point<S>, t: nat, mi: nat, b: Binding, budget: int)
        returns (r: Outcome, ghost run: seq<Move<S>>)
      requires Valid(p.net) && Trusted() && CanDecompose(d, p, t, mi, b) && budget > 0
      requires Open(d, p.net, restrictCompound, t)
      modifies this
      ensures !r.Thrown? ==> plan == old(plan)
      ensures r.Solved? ==> Witness(d, p, run, budget, old(plan), r.score)
      ensures r.Cutoff? ==> CutShort(d, p, run, budget)
      ensures r.Thrown? ==> Trapped(d, p, run)
      ensures !r.Refuted? ==> Follows(d, restrictCompound, p, run)
      ensures r.Refuted? ==> BindingDead(d, p, t, mi, b)
      ensures !r.Refuted? ==> run != [] && run[0] == Decompose(t, mi, b)
      decreases budget, 0
    {
      ghost var mv := Decompose(t, mi, b);
      NextValid(d, p, mv);
      assert plan + StepOf(d, p, mv) == plan;
      r, run := Simulate(Point(p.state, Decomposed(d, p.net, t, mi, b)), budget - 1);
      if r.Solved? {
        WitnessCons(d, p, mv, run, budget, old(plan), r.score);
        FollowsCons(d, restrictCompound, p, mv, run);
        run := [mv] + run;
      } else if r.Cutoff? {
        CutShortCons(d, p, mv, run, budget);
        FollowsCons(d, restrictCompound, p, mv, run);
        run := [mv] + run;
      } else if r.Thrown? {
        TrappedCons(d, p, mv, run);
        FollowsCons(d, restrictCompound, p, mv, run);
        run := [mv] + run;
      }
    }
  }

  // ----- Look-ahead -----

  function BodyOf<S>(d: Domain<S>, p: Point<S>, t: nat, mi: nat): Body
    requires t in p.net.tasks && p.net.tasks[t].head in d.methods && mi < |d.methods[p.net.tasks[t].head]|
  {
    d.methods[p.net.tasks[t].head][mi].body
  }

  /** The run begins with one of these bindings. */
  ghost predicate Began<S>(run: seq<Move<S>>, t: nat, mi: nat, bindings: seq<Binding>, queue: seq<int>)
    requires forall i <- queue :: 0 <= i < |bindings|
  {
    run != [] && run[0].Decompose? && run[0].t == t && run[0].mi == mi && exists i <- queue :: bindings[i] == run[0].b
  }

  /** A binding whose precondition fails now is taken only when every one whose precondition holds is dead,
      and not at all where failing is a proof. */
  ghost predicate WellChosen<S(!new)>(d: Domain<S>, p: Point<S>, t: nat, mi: nat, b: Binding, prune: bool)
    requires t in p.net.tasks && p.net.tasks[t].head in d.methods && mi < |d.methods[p.net.tasks[t].head]|
  {
    || LooksGood(d, BodyOf(d, p, t, mi), b, p.state)
    || (!prune && forall g :: CanDecompose(d, p, t, mi, g) && LooksGood(d, BodyOf(d, p, t, mi), g, p.state) ==>
          BindingDead(d, p, t, mi, g))
  }

  lemma FirstChosen<S(!new)>(d: Domain<S>, p: Point<S>, t: nat, mi: nat, bindings: seq<Binding>, pick: seq<int>,
      run: seq<Move<S>>, guided: bool, lookahead: bool, prune: bool)
    requires Compound(d, p.net, t) && mi < |d.methods[p.net.tasks[t].head]|
    requires bindings == d.methods[p.net.tasks[t].head][mi].bindings(p.state, p.net.tasks[t].args)
    requires |pick| == |bindings| && (forall i <- pick :: 0 <= i < |bindings|) && Began(run, t, mi, bindings, pick)
    requires guided == (lookahead && HasPre(BodyOf(d, p, t, mi)) && (|pick| > 1 || prune))
    requires guided ==> LooksGood(d, BodyOf(d, p, t, mi), run[0].b, p.state)
    ensures lookahead ==> WellChosen(d, p, t, mi, run[0].b, prune)
  {
    hide LooksGood;
    if lookahead && !guided && HasPre(BodyOf(d, p, t, mi)) {
      assert |bindings| == 1 && bindings[0] == run[0].b;
    } else if !HasPre(BodyOf(d, p, t, mi)) {
      AlwaysGood(d, BodyOf(d, p, t, mi), run[0].b, p.state);
    }
  }

  lemma AlwaysGood<S>(d: Domain<S>, m: Body, b: Binding, s: S)
    requires !HasPre(m)
    ensures LooksGood(d, m, b, s)
  {
  }

  lemma LaterChosen<S(!new)>(d: Domain<S>, p: Point<S>, t: nat, mi: nat, bindings: seq<Binding>, pick: seq<int>,
      first: seq<int>, run: seq<Move<S>>, prune: bool)
    requires Compound(d, p.net, t) && mi < |d.methods[p.net.tasks[t].head]|
    requires bindings == d.methods[p.net.tasks[t].head][mi].bindings(p.state, p.net.tasks[t].args)
    requires (forall i <- pick :: 0 <= i < |bindings|) && (forall i :: 0 <= i < |bindings| ==> i in pick)
    requires (forall i <- first :: i in pick) && Began(run, t, mi, bindings, first)
    requires forall i <- pick :: i in first || BindingDead(d, p, t, mi, bindings[i])
    requires forall i <- first :: !prune && !LooksGood(d, BodyOf(d, p, t, mi), bindings[i], p.state)
    ensures WellChosen(d, p, t, mi, run[0].b, prune)
  {
    hide LooksGood, BindingDead;
    forall g | CanDecompose(d, p, t, mi, g) && LooksGood(d, BodyOf(d, p, t, mi), g, p.state)
      ensures BindingDead(d, p, t, mi, g)
    {
      var i :| 0 <= i < |bindings| && bindings[i] == g;
      assert i in pick;
    }
  }

  // ----- Exhausted candidates -----

  ghost predicate BindingDead<S(!new)>(d: Domain<S>, p: Point<S>, t: nat, mi: nat, b: Binding) {
    CanDecompose(d, p, t, mi, b) ==> !Solvable(d, Next(d, p, Decompose(t, mi, b)))
  }

  ghost predicate MethodExhausted<S(!new)>(d: Domain<S>, p: Point<S>, t: nat, mi: nat) {
    forall b :: CanDecompose(d, p, t, mi, b) ==> BindingDead(d, p, t, mi, b)
  }

  /** No move at task `t` leads to a solvable point. */
  ghost predicate Exhausted<S(!new)>(d: Domain<S>, p: Point<S>, t: nat) {
    forall mv: Move<S> :: mv.t == t && Can(d, p, mv) ==> !Solvable(d, Next(d, p, mv))
  }

  lemma NoFreeTask<S(!new)>(d: Domain<S>, p: Point<S>)
    requires p.net.tasks != map[] && forall t :: !Free(p.net, t)
    ensures !Solvable(d, p)
  {
    SolvableByMove(d, p);
  }

  /** Candidates that stand for all: every free task, or one compound task where bindings do not
      depend on the state. */
  ghost predicate Decisive<S(!new)>(d: Domain<S>, p: Point<S>, u: seq<nat>) {
    || (forall t :: Free(p.net, t) ==> t in u)
    || (StableBindings(d) && exists c <- u :: Compound(d, p.net, c))
  }

  /** Exhausting the candidates refutes the point, however the compound task was picked. */
  lemma AllExhausted<S(!new)>(d: Domain<S>, p: Point<S>, u: seq<nat>)
    requires Valid(p.net) && p.net.tasks != map[] && Decisive(d, p, u)
    requires forall t <- u :: Exhausted(d, p, t)
    ensures !Solvable(d, p)
  {
    SolvableByMove(d, p);
    if forall t :: Free(p.net, t) ==> t in u {
      forall mv | Can(d, p, mv)
        ensures !Solvable(d, Next(d, p, mv))
      {
        assert Free(p.net, mv.t);
      }
    } else {
      var c :| c in u && Compound(d, p.net, c);
      OnePickDecides(d, p, c);
      forall mi, b | CanDecompose(d, p, c, mi, b)
        ensures !Solvable(d, Next(d, p, Decompose(c, mi, b)))
      {
        var mv: Move<S> := Decompose(c, mi, b);
        assert mv.t == c && Can(d, p, mv);
      }
    }
  }
}
