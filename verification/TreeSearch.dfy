/** The Monte-Carlo search of one decision (lib/cpphop/cppMCTShop.h, `selection`, `backprop`,
    `expansion` and the search loop of `seek_planMCTS`). Node values are exact reals, the UCT
    formula is any function, and the clock is any bound on the number of iterations. */
module TreeSearch {
  import opened Basics
  import opened Networks
  import opened Progression
  import opened Exchange
  import opened Completeness
  import opened Rollout
  import opened SearchTree

  // ----- What the nodes mean -----

  /** `c` is where some move of `a` leads, with the plan that move extends. */
  ghost predicate IsChild<S(!new)>(d: Domain<S>, a: Core<S>, c: Core<S>) {
    exists mv :: Can(d, a.point, mv) && ChildBy(d, a, c, mv)
  }

  ghost predicate ChildBy<S>(d: Domain<S>, a: Core<S>, c: Core<S>, mv: Move<S>)
    requires Can(d, a.point, mv)
  {
    && c.point == Next(d, a.point, mv) && c.plan == a.plan + StepOf(d, a.point, mv)
    && match mv
       case Act(_, _) => c.prev == -1 && c.added == []
       case Decompose(t, mi, b) =>
         var m := d.methods[a.point.net.tasks[t].head][mi];
         c.prev == t && c.way == m.name && c.added == NewIds(a.point.net.next, |m.body.subs|)
  }

  ghost predicate Means<S(!new)>(d: Domain<S>, th: Theory<S>) {
    && (forall c :: th.valid(c) <==> Valid(c.point.net))
    && (forall c :: th.live(c) <==> Solvable(d, c.point))
    && (forall a, c :: th.child(a, c) <==> IsChild(d, a, c))
  }

  ghost function Meaning<S(!new)>(d: Domain<S>): (th: Theory<S>)
    ensures Means(d, th)
  {
    Theory((c: Core<S>) => Valid(c.point.net), (c: Core<S>) => Solvable(d, c.point),
        (a: Core<S>, c: Core<S>) => IsChild(d, a, c))
  }

  // ----- Generating children -----

  ghost predicate KidsOk<S(!new)>(d: Domain<S>, c: Core<S>, kids: seq<Core<S>>) {
    forall k <- kids :: IsChild(d, c, k) && Valid(k.point.net)
  }

  ghost predicate HasPoint<S>(kids: seq<Core<S>>, q: Point<S>) {
    exists k <- kids :: k.point == q
  }

  /** Every move at task `tid` that could lead on is among the children. */
  ghost predicate KidsCover<S(!new)>(d: Domain<S>, c: Core<S>, tid: nat, kids: seq<Core<S>>) {
    forall mv: Move<S> :: mv.t == tid && Can(d, c.point, mv) && Solvable(d, Next(d, c.point, mv)) ==>
      HasPoint(kids, Next(d, c.point, mv))
  }

  lemma CoverGrows<S(!new)>(d: Domain<S>, c: Core<S>, tid: nat, kids: seq<Core<S>>, more: seq<Core<S>>)
    requires KidsCover(d, c, tid, kids) && forall k <- kids :: k in more
    ensures KidsCover(d, c, tid, more)
  {
    forall mv: Move<S> | mv.t == tid && Can(d, c.point, mv) && Solvable(d, Next(d, c.point, mv))
      ensures HasPoint(more, Next(d, c.point, mv))
    {
      assert HasPoint(kids, Next(d, c.point, mv));
    }
  }

  /** The children an action task gives: one for each successor state it may run into. */
  method ActionKids<S(!new)>(d: Domain<S>, c: Core<S>, tid: nat) returns (kids: seq<Core<S>>, thrown: bool)
    requires Valid(c.point.net) && Primitive(d, c.point.net, tid)
    ensures !thrown ==> KidsOk(d, c, kids) && KidsCover(d, c, tid, kids) && forall k <- kids :: k.prev == -1
    ensures thrown ==> HasMisfit(d, c.point.net)
  {
    hide KidsOk, AfterAct, LinksIntact, FirstActionOk, Solvable, IsChild, HasMisfit;
    NoKids(d, c);
    kids, thrown := [], false;
    var n := c.point.net;
    var task := n.tasks[tid];
    var a := d.actions[task.head];
    var isReal := !a.artificial;
    if d.mode != Compiled && isReal {
      var ok := FirstActionHolds(d, n, task.checks, c.point.state);
      if !ok {
        return;
      }
    }
    if !ArityOk(a.arity, task.args) {
      ActMisfit(d, n, tid);
      return [], true;
    }
    AfterActShape(d, n, tid);
    var states := Apply(a, c.point.state, task.args);
    var after := AfterAct(d, n, tid);
    for i := 0 to |states|
      invariant KidsOk(d, c, kids) && forall k <- kids :: k.prev == -1
      invariant forall j :: 0 <= j < i && CanAct(d, c.point, tid, states[j]) ==> HasPoint(kids, Point(states[j], after))
    {
      var to := states[i];
      if d.mode == Protected && isReal {
        var ok := LinksHold(d, after, task.checks, to);
        if !ok {
          continue;
        }
      }
      var plan := if isReal then c.plan + [PlanStep(n, tid)] else c.plan;
      var kid := Core(Point(to, after), plan, -1, [], "");
      ActKid(d, c, tid, to, kid);
      KidOk(d, c, Some(kid));
      KidsMore(d, c, kids, [kid]);
      assert forall k <- kids :: k in kids + [kid];
      assert kid in kids + [kid];
      kids := kids + [kid];
    }
  }

  lemma ActMisfit<S>(d: Domain<S>, n: Net, t: nat)
    requires Primitive(d, n, t) && !ArityOk(d.actions[n.tasks[t].head].arity, n.tasks[t].args)
    ensures HasMisfit(d, n)
  {
    assert Misfit(d, n, t);
  }

  lemma ActKid<S(!new)>(d: Domain<S>, c: Core<S>, tid: nat, to: S, kid: Core<S>)
    requires Valid(c.point.net) && CanAct(d, c.point, tid, to)
    requires kid.point == Point(to, AfterAct(d, c.point.net, tid)) && kid.prev == -1 && kid.added == []
    requires kid.plan == c.plan + StepOf(d, c.point, Act(tid, to))
    ensures IsChild(d, c, kid) && Valid(kid.point.net)
  {
    AfterActShape(d, c.point.net, tid);
    assert Can(d, c.point, Act(tid, to)) && ChildBy(d, c, kid, Act(tid, to));
  }

  /** The children a method gives, less those look-ahead has proved dead. */
  method MethodKids<S(!new)>(d: Domain<S>, c: Core<S>, tid: nat, mi: nat, prune: bool)
      returns (kids: seq<Core<S>>, thrown: bool)
    requires Valid(c.point.net) && Compound(d, c.point.net, tid) && mi < |d.methods[c.point.net.tasks[tid].head]|
    requires prune ==> LoaderShapes(d) && forall x :: Free(c.point.net, x) ==> x == tid
    ensures !thrown ==>
      KidsOk(d, c, kids) && (forall k <- kids :: k.prev == tid) && forall b :: BindingSeen(d, c, tid, mi, b, kids)
    ensures !thrown ==> ByBindings(d, c, tid, mi, Kept(d, BodyOf(d, c.point, tid, mi),
        d.methods[c.point.net.tasks[tid].head][mi].bindings(c.point.state,
            c.point.net.tasks[tid].args), prune, c.point.state), kids)
    ensures thrown ==> HasMisfit(d, c.point.net)
  {
    hide KidsOk, SeenUpto, Solvable, BindingSeen, HasMisfit, LooksGood, Kept, ByBindings;
    SeenNone(d, c, tid, mi);
    NoneKept(d, c, tid, mi, prune);
    kids, thrown := [], false;
    var args := c.point.net.tasks[tid].args;
    var m := d.methods[c.point.net.tasks[tid].head][mi];
    if !ArityOk(m.arity, args) {
      ArityMisfit(d, c.point.net, tid, mi);
      return [], true;
    }
    var bindings := m.bindings(c.point.state, args);
    for i := 0 to |bindings|
      invariant KidsOk(d, c, kids) && SeenUpto(d, c, tid, mi, bindings, i, kids) && forall k <- kids :: k.prev == tid
      invariant ByBindings(d, c, tid, mi, Kept(d, m.body, bindings[..i], prune, c.point.state), kids)
    {
      var kid := BindingKid(d, c, tid, mi, bindings[i], prune);
      var more := if kid.Some? then kids + [kid.value] else kids;
      KidOk(d, c, kid);
      KeptMore(d, c, tid, mi, bindings, i, prune, kids, kid);
      SeenOne(d, c, tid, mi, bindings, i, kids, more);
      KidsMore(d, c, kids, if kid.Some? then [kid.value] else []);
      assert kids + [] == kids;
      kids := more;
    }
    AllSeen(d, c, tid, mi, bindings, kids);
    assert bindings[..|bindings|] == bindings;
  }

  /** The bindings look-ahead leaves, in their order: where failing is a proof, those whose precondition
      holds now. */
  function Kept<S>(d: Domain<S>, m: Body, bs: seq<Binding>, prune: bool, s: S): seq<Binding> {
    if bs == [] then []
    else
      var b := bs[|bs| - 1];
      Kept(d, m, bs[..|bs| - 1], prune, s) + if prune && !LooksGood(d, m, b, s) then [] else [b]
  }

  /** One child to each of these bindings. */
  ghost predicate ByBindings<S>(d: Domain<S>, c: Core<S>, tid: nat, mi: nat, bs: seq<Binding>, kids: seq<Core<S>>)
    requires Compound(d, c.point.net, tid) && mi < |d.methods[c.point.net.tasks[tid].head]|
  {
    |kids| == |bs| && forall i :: 0 <= i < |bs| ==>
      kids[i].point == Point(c.point.state, Decomposed(d, c.point.net, tid, mi, bs[i]))
  }

  lemma NoneKept<S>(d: Domain<S>, c: Core<S>, tid: nat, mi: nat, prune: bool)
    requires Compound(d, c.point.net, tid) && mi < |d.methods[c.point.net.tasks[tid].head]|
    ensures ByBindings(d, c, tid, mi, Kept(d, BodyOf(d, c.point, tid, mi), [], prune, c.point.state), [])
  {
  }

  lemma KeptMore<S>(d: Domain<S>, c: Core<S>, tid: nat, mi: nat, bs: seq<Binding>, i: nat, prune: bool,
        kids: seq<Core<S>>, kid: Option<Core<S>>)
    requires Compound(d, c.point.net, tid) && mi < |d.methods[c.point.net.tasks[tid].head]| && i < |bs|
    requires ByBindings(d, c, tid, mi, Kept(d, BodyOf(d, c.point, tid, mi), bs[..i], prune, c.point.state), kids)
    requires kid.None? <==> prune && !LooksGood(d, BodyOf(d, c.point, tid, mi), bs[i], c.point.state)
    requires kid.Some? ==> kid.value.point == Point(c.point.state, Decomposed(d, c.point.net, tid, mi, bs[i]))
    ensures ByBindings(d, c, tid, mi, Kept(d, BodyOf(d, c.point, tid, mi), bs[..i + 1], prune, c.point.state),
                       if kid.Some? then kids + [kid.value] else kids)
  {
    hide LooksGood, Decomposed;
    assert bs[..i + 1][..i] == bs[..i];
  }

  lemma SeenNone<S(!new)>(d: Domain<S>, c: Core<S>, tid: nat, mi: nat)
    ensures KidsOk(d, c, []) && forall bs :: SeenUpto(d, c, tid, mi, bs, 0, [])
  {
  }

  lemma KidOk<S(!new)>(d: Domain<S>, c: Core<S>, kid: Option<Core<S>>)
    requires kid.Some? ==> IsChild(d, c, kid.value) && Valid(kid.value.point.net)
    ensures KidsOk(d, c, if kid.Some? then [kid.value] else [])
  {
  }

  lemma ArityMisfit<S>(d: Domain<S>, n: Net, t: nat, mi: nat)
    requires Compound(d, n, t) && mi < |d.methods[n.tasks[t].head]|
    requires !ArityOk(d.methods[n.tasks[t].head][mi].arity, n.tasks[t].args)
    ensures HasMisfit(d, n)
  {
    assert Misfit(d, n, t);
  }

  ghost predicate SeenUpto<S(!new)>(d: Domain<S>, c: Core<S>, tid: nat, mi: nat, bs: seq<Binding>, i: nat,
        kids: seq<Core<S>>) {
    forall j :: 0 <= j < i && j < |bs| ==> BindingSeen(d, c, tid, mi, bs[j], kids)
  }

  lemma SeenOne<S(!new)>(d: Domain<S>, c: Core<S>, tid: nat, mi: nat, bs: seq<Binding>, i: nat, kids: seq<Core<S>>,
        more: seq<Core<S>>)
    requires i < |bs| && SeenUpto(d, c, tid, mi, bs, i, kids) && kids <= more
    requires CanDecompose(d, c.point, tid, mi, bs[i])
    requires more == kids ==> !Solvable(d, Next(d, c.point, Decompose(tid, mi, bs[i])))
    requires more != kids ==> |more| > 0 && more[|more| - 1].point == Next(d, c.point, Decompose(tid, mi, bs[i]))
    ensures SeenUpto(d, c, tid, mi, bs, i + 1, more)
  {
    SeenGrows(d, c, tid, mi, bs[..i], kids, more);
    if more != kids {
      assert more[|more| - 1] in more;
    }
  }

  lemma AllSeen<S(!new)>(d: Domain<S>, c: Core<S>, tid: nat, mi: nat, bs: seq<Binding>, kids: seq<Core<S>>)
    requires SeenUpto(d, c, tid, mi, bs, |bs|, kids)
    requires forall b :: CanDecompose(d, c.point, tid, mi, b) ==> b in bs
    ensures forall b :: BindingSeen(d, c, tid, mi, b, kids)
  {
    forall b
      ensures BindingSeen(d, c, tid, mi, b, kids)
    {
      if CanDecompose(d, c.point, tid, mi, b) {
        var j :| 0 <= j < |bs| && bs[j] == b;
        assert BindingSeen(d, c, tid, mi, bs[j], kids);
      }
    }
  }

  /** The child one binding gives, unless look-ahead proves it dead. */
  method BindingKid<S(!new)>(d: Domain<S>, c: Core<S>, tid: nat, mi: nat, b: Binding, prune: bool)
      returns (kid: Option<Core<S>>)
    requires Valid(c.point.net) && CanDecompose(d, c.point, tid, mi, b)
    requires prune ==> LoaderShapes(d) && forall x :: Free(c.point.net, x) ==> x == tid
    ensures kid.None? ==> !Solvable(d, Next(d, c.point, Decompose(tid, mi, b)))
    ensures kid.Some? ==> IsChild(d, c, kid.value) && Valid(kid.value.point.net)
    ensures kid.Some? ==> kid.value.point == Next(d, c.point, Decompose(tid, mi, b)) && kid.value.prev == tid
    ensures kid.None? <==> prune && !LooksGood(d, BodyOf(d, c.point, tid, mi), b, c.point.state)
  {
    var n := c.point.net;
    var m := d.methods[n.tasks[tid].head][mi];
    if prune && HasPre(m.body) && !LooksGood(d, m.body, b, c.point.state) {
      PrunedIsDead(d, c.point, tid, mi, b);
      return None;
    }
    var core := Core(Point(c.point.state, Decomposed(d, n, tid, mi, b)), c.plan, tid, NewIds(n.next, |m.body.subs|),
        m.name);
    DecomposeKid(d, c, tid, mi, b, core);
    kid := Some(core);
  }

  lemma SeenGrows<S(!new)>(d: Domain<S>, c: Core<S>, tid: nat, mi: nat, bs: seq<Binding>, kids: seq<Core<S>>,
        more: seq<Core<S>>)
    requires forall j :: 0 <= j < |bs| ==> BindingSeen(d, c, tid, mi, bs[j], kids)
    requires kids <= more
    ensures forall j :: 0 <= j < |bs| ==> BindingSeen(d, c, tid, mi, bs[j], more)
  {
    forall q | HasPoint(kids, q)
      ensures HasPoint(more, q)
    {
      var k :| k in kids && k.point == q;
      assert k in more;
    }
  }

  ghost predicate BindingSeen<S(!new)>(d: Domain<S>, c: Core<S>, tid: nat, mi: nat, b: Binding, kids: seq<Core<S>>) {
    CanDecompose(d, c.point, tid, mi, b) && Solvable(d, Next(d, c.point, Decompose(tid, mi, b))) ==>
      HasPoint(kids, Next(d, c.point, Decompose(tid, mi, b)))
  }

  lemma DecomposeKid<S(!new)>(d: Domain<S>, c: Core<S>, tid: nat, mi: nat, b: Binding, kid: Core<S>)
    requires Valid(c.point.net) && CanDecompose(d, c.point, tid, mi, b)
    requires var m := d.methods[c.point.net.tasks[tid].head][mi];
      kid == Core(Point(c.point.state, Decomposed(d, c.point.net, tid, mi, b)), c.plan, tid,
          NewIds(c.point.net.next, |m.body.subs|), m.name)
    ensures IsChild(d, c, kid) && Valid(kid.point.net)
  {
    var mv: Move<S> := Decompose(tid, mi, b);
    NextValid(d, c.point, mv);
    assert kid.plan == c.plan + StepOf(d, c.point, mv);
    assert Can(d, c.point, mv) && ChildBy(d, c, kid, mv);
  }

  method TaskKids<S(!new)>(d: Domain<S>, c: Core<S>, tid: nat, prune: bool) returns (kids: seq<Core<S>>, thrown: bool)
    requires Valid(c.point.net) && (Primitive(d, c.point.net, tid) || Compound(d, c.point.net, tid))
    requires prune ==> LoaderShapes(d) && forall x :: Free(c.point.net, x) ==> x == tid
    ensures !thrown ==> KidsOk(d, c, kids) && KidsCover(d, c, tid, kids)
    ensures !thrown ==> forall k <- kids :: k.prev == if Primitive(d, c.point.net, tid) then -1 else tid
    ensures thrown ==> HasMisfit(d, c.point.net)
  {
    if c.point.net.tasks[tid].head in d.actions {
      kids, thrown := ActionKids(d, c, tid);
      return;
    }
    kids, thrown := [], false;
    var methods := d.methods[c.point.net.tasks[tid].head];
    for mi := 0 to |methods|
      invariant KidsOk(d, c, kids) && forall k <- kids :: k.prev == tid
      invariant forall j, b :: 0 <= j < mi ==> BindingSeen(d, c, tid, j, b, kids)
    {
      var more;
      more, thrown := MethodKids(d, c, tid, mi, prune);
      if thrown {
        return;
      }
      AllSeenGrows(d, c, tid, mi, kids, more);
      kids := kids + more;
    }
    SeenCovers(d, c, tid, kids);
  }

  lemma AllSeenGrows<S(!new)>(d: Domain<S>, c: Core<S>, tid: nat, mi: nat, kids: seq<Core<S>>, more: seq<Core<S>>)
    requires forall j: nat, b :: j < mi ==> BindingSeen(d, c, tid, j, b, kids)
    requires forall b :: BindingSeen(d, c, tid, mi, b, more)
    ensures forall j: nat, b :: j < mi + 1 ==> BindingSeen(d, c, tid, j, b, kids + more)
  {
    forall q | HasPoint(kids, q) || HasPoint(more, q)
      ensures HasPoint(kids + more, q)
    {
      var k :| (k in kids || k in more) && k.point == q;
      assert k in kids + more;
    }
    forall j: nat, b | j < mi + 1
      ensures BindingSeen(d, c, tid, j, b, kids + more)
    {
      assert if j < mi then BindingSeen(d, c, tid, j, b, kids) else BindingSeen(d, c, tid, j, b, more);
    }
  }

  lemma SeenCovers<S(!new)>(d: Domain<S>, c: Core<S>, tid: nat, kids: seq<Core<S>>)
    requires Compound(d, c.point.net, tid)
    requires forall j: nat, b :: j < |d.methods[c.point.net.tasks[tid].head]| ==> BindingSeen(d, c, tid, j, b, kids)
    ensures KidsCover(d, c, tid, kids)
  {
    forall mv: Move<S> | mv.t == tid && Can(d, c.point, mv) && Solvable(d, Next(d, c.point, mv))
      ensures HasPoint(kids, Next(d, c.point, mv))
    {
      assert mv.Decompose? && BindingSeen(d, c, tid, mv.mi, mv.b, kids);
    }
  }

  lemma KidsDecide<S(!new)>(d: Domain<S>, c: Core<S>, u: seq<nat>, kids: seq<Core<S>>)
    requires Valid(c.point.net) && c.point.net.tasks != map[] && Decisive(d, c.point, u)
    requires forall t <- u :: KidsCover(d, c, t, kids)
    ensures Solvable(d, c.point) ==> exists k <- kids :: Solvable(d, k.point)
  {
    if forall k <- kids :: !Solvable(d, k.point) {
      forall t | t in u
        ensures Exhausted(d, c.point, t)
      {
        forall mv: Move<S> | mv.t == t && Can(d, c.point, mv)
          ensures !Solvable(d, Next(d, c.point, mv))
        {
        }
      }
      AllExhausted(d, c.point, u);
    }
  }

  /** The children of a node: of every free primitive task, but not beside a compound one under
      Algorithm 3, and of the lowest free compound task. */
  method ChildrenOf<S(!new)>(d: Domain<S>, c: Core<S>, algorithm: int, lookahead: bool)
      returns (kids: seq<Core<S>>, thrown: bool)
    requires Valid(c.point.net) && c.point.net.tasks != map[] && StableBindings(d) && (lookahead ==> LoaderShapes(d))
    ensures !thrown ==> KidsOk(d, c, kids)
    ensures !thrown && Solvable(d, c.point) ==> exists k <- kids :: Solvable(d, k.point)
    ensures !thrown ==> Branches(d, c, algorithm, kids)
    ensures thrown ==> HasMisfit(d, c.point.net)
  {
    hide KidsOk, KidsCover, Decisive, Solvable, HasMisfit, Branches;
    kids := [];
    var u, compound, ok := FreeTasks(d, c.point.net);
    if !ok {
      StrayMisfit(d, c.point.net);
      return [], true;
    }
    var free := |u| + |compound|;
    ghost var primitive := u;
    if compound != [] {
      if algorithm == 3 {
        u := [];
      }
      var least := Least(compound);
      u := u + [least];
    }
    CandidatesDecide(d, c.point, primitive, compound, algorithm, u);
    NoKids(d, c);
    thrown := false;
    for i := 0 to |u|
      invariant KidsOk(d, c, kids)
      invariant forall j :: 0 <= j < i ==> KidsCover(d, c, u[j], kids)
      invariant forall k <- kids :: MadeOf(d, c.point.net, u, k)
    {
      var more;
      more, thrown := TaskKids(d, c, u[i], lookahead && free == 1);
      if thrown {
        return;
      }
      CoverMore(d, c, u, i, kids, more);
      KidsMore(d, c, kids, more);
      kids := kids + more;
    }
    KidsDecide(d, c, u, kids);
    BranchesBy(d, c, primitive, compound, algorithm, u, kids);
  }

  /** The task a child was made of. */
  ghost predicate MadeOf<S>(d: Domain<S>, n: Net, u: seq<nat>, k: Core<S>) {
    if k.prev < 0 then exists t <- u :: Primitive(d, n, t) else k.prev in u && Compound(d, n, k.prev)
  }

  /** What is branched over: the decompositions of the lowest free compound task, and the actions, but
      under Algorithm 3 only where no compound task is free. */
  ghost predicate Branches<S(!new)>(d: Domain<S>, c: Core<S>, algorithm: int, kids: seq<Core<S>>) {
    var n := c.point.net;
    && (forall k <- kids :: k.prev >= 0 ==> Compound(d, n, k.prev) && forall x :: Compound(d, n, x) ==> k.prev <= x)
    && (forall t :: Compound(d, n, t) && (forall x :: Compound(d, n, x) ==> t <= x) ==> KidsCover(d, c, t, kids))
    && (if algorithm == 3 && exists x :: Compound(d, n, x) then forall k <- kids :: k.prev >= 0
        else forall t :: Primitive(d, n, t) ==> KidsCover(d, c, t, kids))
  }

  ghost predicate IsLowest(ts: seq<nat>, c: nat) {
    c in ts && forall x <- ts :: c <= x
  }

  /** The candidates of a node, from its free tasks. */
  ghost predicate Candidates<S>(d: Domain<S>, n: Net, primitive: seq<nat>, compound: seq<nat>, algorithm: int,
        u: seq<nat>) {
    && (forall t :: Primitive(d, n, t) <==> t in primitive) && (forall t :: Compound(d, n, t) <==> t in compound)
    && (compound == [] ==> u == primitive)
    && (compound != [] ==> exists c :: IsLowest(compound, c) && u == (if algorithm == 3 then [] else primitive) + [c])
  }

  lemma CandidatesDecide<S(!new)>(d: Domain<S>, p: Point<S>, primitive: seq<nat>, compound: seq<nat>, algorithm: int,
          u: seq<nat>)
    requires StableBindings(d) && Candidates(d, p.net, primitive, compound, algorithm, u)
    requires forall t :: Free(p.net, t) ==> t in primitive || t in compound
    ensures Decisive(d, p, u) && forall t <- u :: Primitive(d, p.net, t) || Compound(d, p.net, t)
  {
    if compound != [] {
      assert u[|u| - 1] in u;
    }
  }

  lemma StrayMisfit<S>(d: Domain<S>, n: Net)
    requires exists t :: Free(n, t) && !Primitive(d, n, t) && !Compound(d, n, t)
    ensures HasMisfit(d, n)
  {
    var t :| Free(n, t) && !Primitive(d, n, t) && !Compound(d, n, t);
    assert Misfit(d, n, t);
  }

  lemma NoKids<S(!new)>(d: Domain<S>, c: Core<S>)
    ensures KidsOk(d, c, [])
  {
  }

  lemma KidsMore<S(!new)>(d: Domain<S>, c: Core<S>, kids: seq<Core<S>>, more: seq<Core<S>>)
    requires KidsOk(d, c, kids) && KidsOk(d, c, more)
    ensures KidsOk(d, c, kids + more)
  {
  }

  lemma BranchesBy<S(!new)>(d: Domain<S>, c: Core<S>, primitive: seq<nat>, compound: seq<nat>, algorithm: int,
          u: seq<nat>,
        kids: seq<Core<S>>)
    requires Candidates(d, c.point.net, primitive, compound, algorithm, u)
    requires (forall t <- u :: KidsCover(d, c, t, kids)) && forall k <- kids :: MadeOf(d, c.point.net, u, k)
    ensures Branches(d, c, algorithm, kids)
  {
    hide KidsCover, Primitive, Compound;
    NotBoth(d, c.point.net);
    if compound == [] {
      forall k | k in kids
        ensures k.prev < 0
      {
        assert MadeOf(d, c.point.net, u, k);
      }
    } else {
      var least :| IsLowest(compound, least) && u == (if algorithm == 3 then [] else primitive) + [least];
      assert least in u && Compound(d, c.point.net, least);
      forall k | k in kids
        ensures k.prev >= 0 ==> k.prev == least
        ensures algorithm == 3 ==> k.prev >= 0
      {
        assert MadeOf(d, c.point.net, u, k);
      }
    }
  }

  lemma NotBoth<S>(d: Domain<S>, n: Net)
    ensures forall t :: !(Primitive(d, n, t) && Compound(d, n, t))
  {
  }

  lemma CoverMore<S(!new)>(d: Domain<S>, c: Core<S>, u: seq<nat>, i: nat, kids: seq<Core<S>>, more: seq<Core<S>>)
    requires i < |u| && (forall j :: 0 <= j < i ==> KidsCover(d, c, u[j], kids)) && KidsCover(d, c, u[i], more)
    ensures forall j :: 0 <= j < i + 1 ==> KidsCover(d, c, u[j], kids + more)
  {
    forall j | 0 <= j < i + 1
      ensures KidsCover(d, c, u[j], kids + more)
    {
      CoverGrows(d, c, u[j], if j < i then kids else more, kids + more);
    }
  }

  class Search<S(!new)> {
    const d: Domain<S>
    ghost const th: Theory<S>
    const uct: (TreeNode<S>, TreeNode<S>) -> real
    const rollouts: nat
    const maxDepth: int
    const restrictRollouts: int
    const algorithm: int
    const lookahead: bool
    var t: Nodes<S>
    var cutoffs: nat

    /** A search of the decision at `c`. */
    constructor (d: Domain<S>, uct: (TreeNode<S>, TreeNode<S>) -> real, rollouts: nat, maxDepth: int,
                 restrictRollouts: int, algorithm: int, lookahead: bool, c: Core<S>)
      requires Valid(c.point.net)
      ensures this.d == d && this.rollouts == rollouts && this.lookahead == lookahead && th == Meaning(d)
      ensures t == map[0 := NewNode(c, -1)] && Good(th, t) && Visited(t, {})
    {
      this.d, this.uct, this.rollouts, this.maxDepth := d, uct, rollouts, maxDepth;
      this.restrictRollouts, this.algorithm, this.lookahead := restrictRollouts, algorithm, lookahead;
      this.th := Meaning(d);
      this.t := map[0 := NewNode(c, -1)];
      this.cutoffs := 0;
      new;
      SingleGood(d, th, c);
    }

    function Uct(v: TreeNode<S>): TreeNode<S> -> real {
      w => uct(v, w)
    }

    /** Adds a result to a node and to everything above it. */
    method Backprop(n: nat, r: real, k: nat)
      requires Rooted(t) && n in t
      modifies this`t
      ensures Backed(old(t), t, n, r, k)
    {
      var cur: int := n;
      ghost var t0, done: set<nat> := t, {};
      while cur != -1
        invariant -1 <= cur && (cur >= 0 ==> cur in t0)
        invariant CreditedOn(t0, t, done, r, k) && Upto(t0, n, done, cur)
        decreases cur
      {
        var c: nat := cur;
        UptoOne(t0, n, done, c);
        CreditOne(t0, t, done, r, k, c);
        t := t[c := Credited(t[c], r, k)];
        done := done + {c};
        cur := t[c].pred;
      }
    }

    /** Descends by best value to a child to be visited first, or to a leaf; marks a node whose
        children are all refuted, and then starts over. `marked` is the tree with those marks, and
        `at` where the descent ended. */
    method Select() returns (n: nat, ghost marked: Nodes<S>, ghost at: nat)
      requires Good(th, t) && Visited(t, {})
      modifies this`t
      ensures Good(th, t) && Later(old(t), t) && n in t && Visited(t, {n})
      ensures t[n].deadend ==> n == 0
      ensures !t[n].deadend ==> !HasKids(t[n])
      ensures Explored(t, n)
      ensures OnlyMarks(old(t), marked) && BestWay(marked, at, uct) && at in marked
      ensures (t == marked && n == at) || Popped(marked, t, at, n)
    {
      hide Visited, Later, BestWay, Honest, NodeShape, OnlyMarks, Explored;
      var v: nat := 0;
      marked, at := t, 0;
      WayStarts(t, uct);
      if t[0].unexplored != [] {
        n := Pop(0);
        return;
      }
      RootExplored(t);
      LaterSelf(t);
      while t[v].successors != []
        invariant Ready(th, t, v) && Later(old(t), t)
        invariant OnlyMarks(old(t), t) && BestWay(t, v, uct)
        decreases LiveNodes(t), |t| - v
      {
        if t[v].deadend {
          VisitedStays(t, v);
          return v, t, v;
        }
        SuccessorsReady(th, t, v);
        var value := Uct(t[v]);
        var maxes := BestKids(v, value);
        if maxes == [] {
          DeadEndFound(th, old(t), t, v);
          MarkedOnly(old(t), t, v);
          t := MarkDead(t, v);
          WayStarts(t, uct);
          v := 0;
          continue;
        }
        var c := Pick(maxes);
        WayOn(th, t, uct, v, c);
        v := c;
        if t[v].unexplored != [] {
          marked, at := t, v;
          n := Pop(v);
          LaterTrans(old(t), marked, t);
          return;
        }
      }
      VisitedStays(t, v);
      return v, t, v;
    }

    /** Takes the last unexplored child of `v`. */
    method Pop(v: nat) returns (w: nat)
      requires Good(th, t) && Visited(t, {}) && v in t && t[v].unexplored != []
      modifies this`t
      ensures t == PopChild(old(t), v) && w == old(t)[v].unexplored[|old(t)[v].unexplored| - 1]
      ensures Good(th, t) && Later(old(t), t) && w in t && Visited(t, {w}) && !t[w].deadend && !HasKids(t[w])
      ensures Explored(t, w)
    {
      PopEffects(th, t, v);
      w := t[v].unexplored[|t[v].unexplored| - 1];
      t := PopChild(t, v);
    }

    /** The children of `v` not refuted, of greatest value. */
    method BestKids(v: nat, value: TreeNode<S> -> real) returns (maxes: seq<nat>)
      requires v in t && forall c <- t[v].successors :: c in t
      ensures forall c <- maxes :: LiveKid(t, v, c)
      ensures forall c <- maxes :: c in t && forall w <- t[v].successors :: t[w].deadend || value(t[w]) <= value(t[c])
      ensures maxes == [] ==> forall c <- t[v].successors :: t[c].deadend
    {
      var best := 0.0;
      maxes := [];
      var kids := t[v].successors;
      for i := 0 to |kids|
        invariant forall c <- maxes :: LiveKid(t, v, c) && value(t[c]) == best
        invariant forall j :: 0 <= j < i && !t[kids[j]].deadend ==> maxes != [] && value(t[kids[j]]) <= best
      {
        var w := kids[i];
        if !t[w].deadend {
          var s := value(t[w]);
          if maxes == [] || s >= best {
            if maxes == [] || s > best {
              best := s;
              maxes := [w];
            } else {
              maxes := maxes + [w];
            }
          }
        }
      }
    }

    /** What the search relies on: bindings that no action changes, the loader's shape of methods
        where look-ahead prunes, and at least one rollout a visit. */
    ghost predicate Trusted()
    {
      Means(d, th) && StableBindings(d) && (lookahead ==> LoaderShapes(d)) && rollouts > 0
    }

    /** Gives a visited leaf its children and takes one of them, or finds it a dead end. */
    method Expand(n: nat) returns (r: nat, thrown: bool, ghost kids: seq<Core<S>>, ghost u: seq<nat>)
      requires Trusted() && Good(th, t) && Visited(t, {}) && n in t && Explored(t, n)
      requires !HasKids(t[n]) && t[n].core.point.net.tasks != map[]
      modifies this`t
      ensures !thrown ==> Good(th, t) && Later(old(t), t) && r in t && Visited(t, {r}) && Explored(t, r)
      ensures !thrown ==> KidsOk(d, old(t)[n].core, kids) && (Solvable(d, old(t)[n].core.point) ==>
          exists k <- kids :: Solvable(d, k.point))
      ensures !thrown ==> Branches(d, old(t)[n].core, algorithm, kids)
      ensures !thrown ==> if kids == [] then r == n && t == MarkDead(old(t), n) else Attached(old(t), t, n, kids, u, r)
      ensures thrown ==> HasMisfit(d, old(t)[n].core.point.net)
    {
      hide Good, Later, Visited, Explored, Branches, HasMisfit, KidsOk;
      r, u := n, [];
      NodeValid(d, th, t, n);
      var some;
      some, thrown := ChildrenOf(d, t[n].core, algorithm, lookahead);
      kids := some;
      if thrown {
        return;
      }
      KidsMean(d, th, t[n].core, some);
      if some == [] {
        Bury(n);
      } else {
        r, u := Attach(n, some);
      }
    }

    method AddKids(n: nat, kids: seq<Core<S>>)
      requires n in t
      modifies this`t
      ensures t == AddAll(old(t), n, kids)
    {
      for i := 0 to |kids|
        invariant n in t && t == AddAll(old(t), n, kids[..i])
      {
        assert kids[..i + 1][..i] == kids[..i];
        t := AddKid(t, n, kids[i]);
      }
      assert kids[..|kids|] == kids;
    }

    /** Adds the children, in a random order, and takes the last. */
    method Attach(n: nat, kids: seq<Core<S>>) returns (r: nat, ghost order: seq<nat>)
      requires Good(th, t) && Visited(t, {}) && n in t && Explored(t, n) && !HasKids(t[n]) && kids != []
      requires forall k <- kids :: th.valid(k) && th.child(t[n].core, k)
      requires th.live(t[n].core) ==> exists k <- kids :: th.live(k)
      modifies this`t
      ensures Good(th, t) && Later(old(t), t) && r in t && Visited(t, {r}) && Explored(t, r)
      ensures Attached(old(t), t, n, kids, order, r)
    {
      hide Good, Later, Visited, Explored, AddAll;
      ghost var t0 := t;
      AddKids(n, kids);
      var u := Shuffle(t[n].unexplored);
      order := u;
      AttachGood(th, t0, n, kids, u);
      t := WithUnexplored(t, n, u);
      ghost var t1 := t;
      r := Pop(n);
      LaterTrans(t0, t1, t);
    }

    /** No move leads on from this node. */
    method Bury(n: nat)
      requires Good(th, t) && Visited(t, {}) && n in t && Explored(t, n) && !th.live(t[n].core)
      modifies this`t
      ensures Good(th, t) && Later(old(t), t) && n in t && Visited(t, {n}) && Explored(t, n)
      ensures t == MarkDead(old(t), n)
    {
      hide Good, Later, Visited;
      MarkDeadKeeps(th, t, n);
      MarkDeadVisited(t, n);
      VisitedStays(MarkDead(t, n), n);
      t := MarkDead(t, n);
    }

    /** Values a node by rollouts; a refuted one is a dead end, a cut-off one is not. */
    method Evaluate(n: nat) returns (thrown: bool, ghost r: Outcome)
      requires Trusted() && Good(th, t) && Visited(t, {n}) && n in t && Explored(t, n)
      modifies this
      ensures thrown == r.Thrown? && Rolled(d, old(t)[n].core, rollouts, maxDepth, r)
      ensures !thrown ==> Good(th, t) && Later(old(t), t) && Visited(t, {})
      ensures !thrown ==> Concluded(old(t), t, n, r, rollouts)
    {
      hide Good, Later, Visited, Explored, Rolled, Concluded;
      NodeValid(d, th, t, n);
      ghost var core := t[n].core;
      var one := Roll(t[n].core);
      r := one;
      if one.Thrown? {
        return true, r;
      }
      if one.Refuted? {
        DeadIfRefuted(d, th, core);
      }
      thrown := false;
      Conclude(n, one);
    }

    method Credit(n: nat, r: real, k: nat)
      requires Good(th, t) && Visited(t, {n}) && n in t && k > 0
      modifies this`t
      ensures Good(th, t) && Later(old(t), t) && Visited(t, {})
      ensures Rooted(old(t)) && Backed(old(t), t, n, r, k)
    {
      ShapeRooted(t);
      ghost var t0 := t;
      Backprop(n, r, k);
      BackedGood(th, t0, t, n, r, k);
      BackedVisited(t0, t, n, r, k);
    }

    /** The test for an early commit: the root's children are all generated, and all but one refuted. */
    method OneLeft() returns (yes: bool)
      requires Shape(t)
      ensures yes <==> exists c :: Settled(t, c)
    {
      hide Shape;
      RootKids(t);
      if t[0].unexplored != [] || t[0].successors == [] {
        return false;
      }
      var live, last := 0, 0;
      var kids := t[0].successors;
      for i := 0 to |kids|
        invariant live <= 1 && (live == 1 ==> LiveKid(t, 0, last) && last in kids[..i])
        invariant forall j :: 0 <= j < i && !t[kids[j]].deadend ==> live == 1 && kids[j] == last
      {
        if !t[kids[i]].deadend {
          assert kids[i] !in kids[..i];
          live, last := live + 1, if live == 0 then kids[i] else last;
          if live > 1 {
            assert LiveKid(t, 0, kids[i]) && LiveKid(t, 0, last) && kids[i] != last;
            return false;
          }
        }
      }
      yes := live == 1;
      if yes { assert Settled(t, last); }
    }

    /** Searches, within a bound on iterations, and picks the root's child of best mean among those
        not refuted. */
    method Decide(budget: nat, earlyCommit: bool) returns (choice: Option<nat>, thrown: bool)
      requires Trusted() && Good(th, t) && Visited(t, {})
      modifies this
      ensures !thrown ==> Good(th, t) && Later(old(t), t) && Visited(t, {})
      ensures !thrown && choice.Some? ==> LiveKid(t, 0, choice.value)
      ensures !thrown && choice.Some? ==> forall w :: LiveKid(t, 0, w) ==> Mean(t[w]) <= Mean(t[choice.value])
      ensures !thrown && choice.None? ==> forall c :: !LiveKid(t, 0, c)
      ensures !thrown ==>
        t[0].sims >= old(t)[0].sims + budget || t[0].deadend || (earlyCommit && exists c :: Settled(t, c))
      ensures thrown ==> Faulty(d, old(t)[0].core.point)
    {
      hide Good, Later, Visited, Settled, Faulty, Iterated;
      ghost var first := t;
      GoodRoot(th, t);
      var iterations := 0;
      thrown := false;
      choice := None;
      LaterSelf(t);
      ghost var done := false;
      while iterations < budget
        invariant Good(th, t) && Later(first, t) && Visited(t, {}) && 0 in t && iterations <= budget
        invariant t[0].core == first[0].core && t[0].sims >= first[0].sims + iterations && !done
      {
        iterations := iterations + 1;
        ghost var t0 := t;
        var stop;
        ghost var step;
        stop, thrown, step := Iterate();
        if thrown {
          return;
        }
        LaterTrans(first, t0, t);
        GoodRoot(th, t);
        RootStays(first, t);
        if stop {
          done := true;
          break;
        }
        if earlyCommit {
          GoodShape(th, t);
          var one := OneLeft();
          if one {
            done := true;
            break;
          }
        }
      }
      GoodShape(th, t);
      KidsPresent(t, 0);
      var maxes := BestKids(0, Mean);
      if maxes != [] {
        var c := Pick(maxes);
        choice := Some(c);
      }
    }

    /** Values a leaf by rollouts, its children given to it first if it was valued before. */
    method Work(n: nat, ghost before: Iteration<S>) returns (thrown: bool, ghost x: Iteration<S>)
      requires Trusted() && Good(th, t) && Visited(t, {n}) && n in t && Explored(t, n)
      requires !HasKids(t[n]) && t[n].core.point.net.tasks != map[] && before.picked == t && before.n == n
      modifies this
      ensures !thrown ==> Good(th, t) && Later(old(t), t) && Visited(t, {})
      ensures !thrown ==> 0 in t && 0 in old(t) && t[0].sims > old(t)[0].sims
      ensures x.marked == before.marked && x.at == before.at && x.picked == old(t) && x.n == n
      ensures !thrown ==> Expanded(d, algorithm, x) && Rolled(d, x.grown[x.r].core, rollouts, maxDepth, x.said)
      ensures !thrown ==> Concluded(x.grown, t, x.r, x.said, rollouts)
      ensures thrown ==> Faulty(d, old(t)[n].core.point)
    {
      hide Good, Shape, Later, Visited, Explored, Rooted, Rolled, Concluded, Backed, Expanded, Faulty, HasMisfit,
           Attached,
           Branches, KidsOk, Means, StableBindings, LoaderShapes;
      ghost var t0 := t;
      GoodShape(th, t0);
      LaterSelf(t);
      x := before.(grown := t, r := n, kids := [], order := []);
      var r := n;
      if t[n].sims > 0 {
        SeenVisited(t, n);
        ghost var kids, u;
        r, thrown, kids, u := Expand(n);
        x := x.(kids := kids, order := u);
        if thrown {
          MisfitIsFault(d, t0[n].core.point);
          return;
        }
      }
      ghost var t1 := t;
      GoodShape(th, t1);
      x := x.(grown := t1, r := r);
      LaterRoot(t0, t1);
      ghost var said;
      thrown, said := Evaluate(r);
      x := x.(said := said);
      ExpandedBy(d, algorithm, x);
      if thrown {
        RolledFault(d, t1[r].core, rollouts, maxDepth, said);
        FaultAbove(d, th, algorithm, x);
      } else {
        ConcludedRoot(t1, t, r, said, rollouts);
        LaterTrans(t0, t1, t);
      }
    }

    /** One iteration of the search. */
    method Iterate() returns (stop: bool, thrown: bool, ghost x: Iteration<S>)
      requires Trusted() && Good(th, t) && Visited(t, {})
      modifies this
      ensures !thrown ==> Good(th, t) && Later(old(t), t) && Visited(t, {})
      ensures !thrown ==> 0 in t && 0 in old(t) && if stop then t[0].deadend else t[0].sims > old(t)[0].sims
      ensures !thrown ==> Iterated(d, uct, algorithm, rollouts, maxDepth, old(t), t, x, stop)
      ensures thrown ==> 0 in old(t) && Faulty(d, old(t)[0].core.point)
    {
      hide Good, Shape, Later, Visited, Explored, Rooted, Rolled, Concluded, Backed, Iterated, Expanded, Faulty,
           HasMisfit,
           BestWay, OnlyMarks, Attached, Branches, KidsOk, Means, StableBindings, LoaderShapes;
      ghost var first := t;
      GoodRoot(th, first);
      GoodShape(th, first);
      var n;
      ghost var marked, at;
      n, marked, at := Select();
      ghost var t0 := t;
      GoodShape(th, t0);
      LaterRoot(first, t0);
      x := Iteration(marked, at, t0, n, [], [], t0, n, Cutoff);
      stop, thrown := false, false;
      if t[n].deadend {
        RootVisited(t);
        IteratedStop(d, uct, algorithm, rollouts, maxDepth, first, t, x);
        stop := true;
      } else if t[n].core.point.net.tasks == map[] {
        Credit(n, d.score(t[n].core.point.state, t[n].core.plan), 1);
        BackedRoot(t0, t, n, d.score(t0[n].core.point.state, t0[n].core.plan), 1);
        IteratedScore(d, uct, algorithm, rollouts, maxDepth, first, t, x);
        LaterTrans(first, t0, t);
      } else {
        thrown, x := Work(n, x);
        if thrown {
          FaultAtRoot(d, th, uct, first, x);
        } else {
          IteratedRolls(d, uct, algorithm, rollouts, maxDepth, first, t, x);
          LaterTrans(first, t0, t);
        }
      }
    }

    /** Records how the rollouts from `n` ended. */
    method Conclude(n: nat, r: Outcome)
      requires rollouts > 0 && Good(th, t) && Visited(t, {n}) && n in t && Explored(t, n)
      requires r.Refuted? ==> !th.live(t[n].core)
      modifies this`t
      ensures Good(th, t) && Later(old(t), t) && Visited(t, {})
      ensures Concluded(old(t), t, n, r, rollouts)
    {
      if r.Refuted? {
        MarkDeadKeeps(th, t, n);
        MarkDeadPending(t, n);
        t := MarkDead(t, n);
      } else {
        LaterSelf(t);
      }
      ghost var t1 := t;
      ShapeRooted(t);
      var value, visits := -1.0, 1;
      if r.Solved? {
        value, visits := r.score, rollouts;
      }
      Backprop(n, value, visits);
      BackedGood(th, t1, t, n, value, visits);
      BackedVisited(t1, t, n, value, visits);
      LaterTrans(old(t), t1, t);
    }

    /** The rollouts from one point: the sum of their scores, unless one of them stops otherwise. */
    method Roll(c: Core<S>) returns (r: Outcome)
      requires StableBindings(d) && (lookahead ==> LoaderShapes(d)) && Valid(c.point.net)
      modifies this`cutoffs
      ensures Rolled(d, c, rollouts, maxDepth, r)
      ensures cutoffs == old(cutoffs) + if r.Cutoff? then 1 else 0
    {
      var sum := 0.0;
      ghost var scores: seq<real> := [];
      for j := 0 to rollouts
        invariant cutoffs == old(cutoffs) && |scores| == j && sum == SumOf(scores)
        invariant forall x <- scores :: Reaches(d, c, maxDepth, x)
      {
        var sim := new Simulator(d, restrictRollouts, lookahead, c.plan);
        var one, run := sim.Simulate(c.point, maxDepth);
        if one.Cutoff? {
          cutoffs := cutoffs + 1;
        }
        if !one.Solved? {
          return one;
        }
        assert (scores + [one.score])[..j] == scores;
        scores := scores + [one.score];
        sum := sum + one.score;
      }
      r := Solved(sum);
      assert Sums(d, c, rollouts, maxDepth, sum, scores);
    }
  }

  // ----- What the descent does -----

  /** The same tree but for marks. */
  ghost predicate OnlyMarks<S>(t0: Nodes<S>, t: Nodes<S>) {
    t.Keys == t0.Keys && forall v <- t :: t[v] == t0[v].(deadend := t[v].deadend)
  }

  lemma MarkedOnly<S>(t0: Nodes<S>, t: Nodes<S>, v: nat)
    requires OnlyMarks(t0, t) && v in t
    ensures OnlyMarks(t0, MarkDead(t, v))
  {
  }

  /** Every node from the root down to `v` has the greatest value among its parent's children that are
      not refuted. */
  ghost predicate BestWay<S>(t: Nodes<S>, v: int, uct: (TreeNode<S>, TreeNode<S>) -> real)
    decreases v
  {
    v == 0 || (0 < v && v in t && t[v].pred < v && t[v].pred in t && Best(t, t[v].pred, v, uct) &&
        BestWay(t, t[v].pred, uct))
  }

  ghost predicate Best<S>(t: Nodes<S>, p: nat, v: nat, uct: (TreeNode<S>, TreeNode<S>) -> real)
    requires p in t
  {
    LiveKid(t, p, v) && v in t && forall w <- t[p].successors :: w in t && !t[w].deadend ==>
        uct(t[p], t[w]) <= uct(t[p], t[v])
  }

  lemma WayStarts<S>(t: Nodes<S>, uct: (TreeNode<S>, TreeNode<S>) -> real)
    ensures BestWay(t, 0, uct) && OnlyMarks(t, t)
  {
  }

  lemma WayOn<S(!new)>(th: Theory<S>, t: Nodes<S>, uct: (TreeNode<S>, TreeNode<S>) -> real, v: nat, c: nat)
    requires Good(th, t) && v in t && BestWay(t, v, uct) && Best(t, v, c, uct)
    ensures BestWay(t, c, uct)
  {
    assert NodeShape(t, v) && IsKid(t[v], c);
  }

  /** The last unexplored child of `at` becomes one explored. */
  ghost predicate Popped<S>(t0: Nodes<S>, t: Nodes<S>, at: nat, n: nat) {
    at in t0 && t0[at].unexplored != [] && t == PopChild(t0, at) && n == t0[at].unexplored[|t0[at].unexplored| - 1]
  }

  // ----- One iteration -----

  /** An iteration: the tree with its marks, where the descent ended, the tree with the node taken, that
      node; the children it got and their order, the tree then, and the node valued; and what the
      rollouts said. */
  datatype Iteration<!S> =
    Iteration(marked: Nodes<S>, at: nat, picked: Nodes<S>, n: nat, kids: seq<Core<S>>, order: seq<nat>, grown: Nodes<S>,
        r: nat,
         said: Outcome)

  ghost predicate Descended<S>(uct: (TreeNode<S>, TreeNode<S>) -> real, t0: Nodes<S>, x: Iteration<S>) {
    && OnlyMarks(t0, x.marked) && BestWay(x.marked, x.at, uct) && x.n in x.picked
    && ((x.picked == x.marked && x.n == x.at) || Popped(x.marked, x.picked, x.at, x.n))
  }

  /** A node visited before gets its children; one not visited yet stays as it is. */
  ghost predicate Expanded<S(!new)>(d: Domain<S>, algorithm: int, x: Iteration<S>)
    requires x.n in x.picked
  {
    x.r in x.grown &&
    if x.picked[x.n].sims == 0 then x.grown == x.picked && x.r == x.n
    else
      && KidsOk(d, x.picked[x.n].core, x.kids) && Branches(d, x.picked[x.n].core, algorithm, x.kids)
      && if x.kids == [] then x.r == x.n && x.grown == MarkDead(x.picked, x.n)
         else Attached(x.picked, x.grown, x.n, x.kids, x.order, x.r)
  }

  /** What one iteration does: nothing more at a refuted root; the score of a finished plan; or children
      for a node visited before, and rollouts from the node or the child taken. */
  ghost predicate Iterated<S(!new)>(d: Domain<S>, uct: (TreeNode<S>,
        TreeNode<S>) -> real, algorithm: int, rollouts: nat, maxDepth: int,
        t0: Nodes<S>, t: Nodes<S>, x: Iteration<S>, stop: bool) {
    Descended(uct, t0, x) && stop == x.picked[x.n].deadend &&
    var core := x.picked[x.n].core;
    if stop then t == x.picked
    else if core.point.net.tasks == map[] then
      Rooted(x.picked) && Backed(x.picked, t, x.n, d.score(core.point.state, core.plan), 1)
    else
      && Expanded(d, algorithm, x)
      && Rolled(d, x.grown[x.r].core, rollouts, maxDepth, x.said) && Concluded(x.grown, t, x.r, x.said, rollouts)
  }

  lemma IteratedStop<S(!new)>(d: Domain<S>, uct: (TreeNode<S>,
        TreeNode<S>) -> real, algorithm: int, rollouts: nat, maxDepth: int,
        t0: Nodes<S>, t: Nodes<S>, x: Iteration<S>)
    requires Descended(uct, t0, x) && x.picked == t && t[x.n].deadend
    ensures Iterated(d, uct, algorithm, rollouts, maxDepth, t0, t, x, true)
  {
    hide BestWay, OnlyMarks, Popped;
  }

  lemma IteratedScore<S(!new)>(d: Domain<S>, uct: (TreeNode<S>,
        TreeNode<S>) -> real, algorithm: int, rollouts: nat, maxDepth: int,
        t0: Nodes<S>, t: Nodes<S>, x: Iteration<S>)
    requires Descended(uct, t0, x) && !x.picked[x.n].deadend && x.picked[x.n].core.point.net.tasks == map[]
    requires Rooted(x.picked)
    requires var core := x.picked[x.n].core; Backed(x.picked, t, x.n, d.score(core.point.state, core.plan), 1)
    ensures Iterated(d, uct, algorithm, rollouts, maxDepth, t0, t, x, false)
  {
    hide BestWay, OnlyMarks, Popped, Backed, Rooted;
  }

  lemma IteratedRolls<S(!new)>(d: Domain<S>, uct: (TreeNode<S>,
        TreeNode<S>) -> real, algorithm: int, rollouts: nat, maxDepth: int,
        t0: Nodes<S>, t: Nodes<S>, x: Iteration<S>)
    requires Descended(uct, t0, x) && !x.picked[x.n].deadend && x.picked[x.n].core.point.net.tasks != map[]
    requires Expanded(d, algorithm, x) && Rolled(d, x.grown[x.r].core, rollouts, maxDepth, x.said)
    requires Concluded(x.grown, t, x.r, x.said, rollouts)
    ensures Iterated(d, uct, algorithm, rollouts, maxDepth, t0, t, x, false)
  {
    hide BestWay, OnlyMarks, Popped, Concluded, Rolled, Expanded;
  }

  lemma ExpandedBy<S(!new)>(d: Domain<S>, algorithm: int, x: Iteration<S>)
    requires x.n in x.picked && x.r in x.grown
    requires x.picked[x.n].sims == 0 ==> x.grown == x.picked && x.r == x.n
    requires x.picked[x.n].sims > 0 ==>
      KidsOk(d, x.picked[x.n].core, x.kids) && Branches(d, x.picked[x.n].core, algorithm, x.kids)
    requires x.picked[x.n].sims > 0 && x.kids == [] ==> x.r == x.n && x.grown == MarkDead(x.picked, x.n)
    requires x.picked[x.n].sims > 0 && x.kids != [] ==> Attached(x.picked, x.grown, x.n, x.kids, x.order, x.r)
    ensures Expanded(d, algorithm, x)
  {
    hide KidsOk, Branches, Attached;
  }

  /** A fault below a node is one from the node. */
  lemma FaultUp<S(!new)>(d: Domain<S>, a: Core<S>, c: Core<S>)
    requires IsChild(d, a, c) && Faulty(d, c.point)
    ensures Faulty(d, a.point)
  {
    var mv :| Can(d, a.point, mv) && ChildBy(d, a, c, mv);
    FaultFrom(d, a.point, mv);
  }

  lemma {:induction false} FaultOnWay<S(!new)>(d: Domain<S>, th: Theory<S>, uct: (TreeNode<S>,
        TreeNode<S>) -> real, t0: Nodes<S>,
        t: Nodes<S>, v: nat)
    requires Means(d, th) && Good(th, t0) && OnlyMarks(t0, t) && BestWay(t, v, uct) && v in t
    requires Faulty(d, t[v].core.point)
    ensures Faulty(d, t0[0].core.point)
    decreases v
  {
    hide Faulty, IsChild, Solvable;
    if v > 0 {
      var p := t[v].pred;
      assert LiveKid(t, p, v) && IsKid(t0[p], v) && NodeHonest(th, t0, p);
      FaultUp(d, t0[p].core, t0[v].core);
      FaultOnWay(d, th, uct, t0, t, p);
    }
  }

  /** A fault from the node taken is one from the root. */
  lemma FaultAtRoot<S(!new)>(d: Domain<S>, th: Theory<S>, uct: (TreeNode<S>,
        TreeNode<S>) -> real, t0: Nodes<S>, x: Iteration<S>)
    requires Means(d, th) && Good(th, t0) && Descended(uct, t0, x) && x.at in x.marked
    requires Faulty(d, x.picked[x.n].core.point)
    ensures Faulty(d, t0[0].core.point)
  {
    hide Faulty, IsChild, Solvable, BestWay;
    if x.picked == x.marked && x.n == x.at {
      FaultOnWay(d, th, uct, t0, x.marked, x.at);
    } else {
      assert NodeHonest(th, t0, x.at) && NodeShape(t0, x.at) && IsKid(t0[x.at], x.n);
      assert x.n != x.at && x.picked[x.n].core == t0[x.n].core;
      FaultUp(d, t0[x.at].core, t0[x.n].core);
      FaultOnWay(d, th, uct, t0, x.marked, x.at);
    }
  }

  /** And a fault from the child taken is one from its node. */
  lemma FaultAbove<S(!new)>(d: Domain<S>, th: Theory<S>, algorithm: int, x: Iteration<S>)
    requires Means(d, th) && x.n in x.picked && Expanded(d, algorithm, x)
    requires Good(th, x.picked) && Good(th, x.grown) && Later(x.picked, x.grown) && Faulty(d, x.grown[x.r].core.point)
    ensures Faulty(d, x.picked[x.n].core.point)
  {
    hide Faulty, IsChild, Solvable, Branches, KidsOk;
    if x.r != x.n {
      AttachedKid(x.picked, x.grown, x.n, x.kids, x.order, x.r);
      assert NodeHonest(th, x.grown, x.n);
      FaultUp(d, x.grown[x.n].core, x.grown[x.r].core);
    }
    assert x.grown[x.n].core == x.picked[x.n].core;
  }

  lemma AttachedKid<S>(t0: Nodes<S>, t: Nodes<S>, n: nat, kids: seq<Core<S>>, u: seq<nat>, r: nat)
    requires n in t0 && Attached(t0, t, n, kids, u, r)
    ensures n in t && IsKid(t[n], r)
  {
    hide AddAll;
    var b := WithUnexplored(AddAll(t0, n, kids), n, u);
    assert b[n].unexplored == u;
    assert t[n].successors == b[n].successors + [r];
  }

  lemma RolledFault<S(!new)>(d: Domain<S>, c: Core<S>, rollouts: nat, maxDepth: int, r: Outcome)
    requires Rolled(d, c, rollouts, maxDepth, r) && r.Thrown?
    ensures Faulty(d, c.point)
  {
  }

  lemma RootKids<S>(t: Nodes<S>)
    requires Shape(t)
    ensures 0 in t && forall c <- t[0].successors :: c in t
    ensures forall i, j :: 0 <= i < j < |t[0].successors| ==> t[0].successors[i] != t[0].successors[j]
  {
    KidsPresent(t, 0);
    assert NodeShape(t, 0);
  }

  lemma GoodRoot<S(!new)>(th: Theory<S>, t: Nodes<S>)
    requires Good(th, t)
    ensures 0 in t
  {
  }

  lemma GoodShape<S(!new)>(th: Theory<S>, t: Nodes<S>)
    requires Good(th, t)
    ensures Shape(t)
  {
  }

  lemma RootStays<S>(a: Nodes<S>, b: Nodes<S>)
    requires Later(a, b) && 0 in a
    ensures 0 in b && b[0].core == a[0].core
  {
  }

  // ----- What rollouts say -----

  /** A run within the depth bound ends in this score. */
  ghost predicate Reaches<S(!new)>(d: Domain<S>, c: Core<S>, maxDepth: int, score: real) {
    exists run :: Witness(d, c.point, run, maxDepth, c.plan, score)
  }

  function SumOf(xs: seq<real>): real {
    if xs == [] then 0.0 else SumOf(xs[..|xs| - 1]) + xs[|xs| - 1]
  }

  ghost predicate Sums<S(!new)>(d: Domain<S>, c: Core<S>, rollouts: nat, maxDepth: int, score: real,
        scores: seq<real>) {
    |scores| == rollouts && score == SumOf(scores) && forall x <- scores :: Reaches(d, c, maxDepth, x)
  }

  /** What the rollouts from a node said: the sum of the scores of that many solutions, that there is
      none, or that one was cut short or thrown at. */
  ghost predicate Rolled<S(!new)>(d: Domain<S>, c: Core<S>, rollouts: nat, maxDepth: int, r: Outcome) {
    match r
    case Solved(score) => exists scores :: Sums(d, c, rollouts, maxDepth, score, scores)
    case Refuted => !Solvable(d, c.point)
    case Cutoff => exists run :: CutShort(d, c.point, run, maxDepth)
    case Thrown => exists run :: Trapped(d, c.point, run)
  }

  /** The node marked if it was refuted, and it and those above it credited with what was said. */
  ghost predicate Concluded<S>(t0: Nodes<S>, t: Nodes<S>, n: nat, r: Outcome, rollouts: nat)
    requires n in t0
  {
    var t1 := if r.Refuted? then MarkDead(t0, n) else t0;
    Rooted(t1) && if r.Solved? then Backed(t1, t, n, r.score, rollouts) else Backed(t1, t, n, -1.0, 1)
  }

  lemma BackedRoot<S>(t0: Nodes<S>, t: Nodes<S>, n: nat, r: real, k: nat)
    requires Shape(t0) && Rooted(t0) && n in t0 && Backed(t0, t, n, r, k)
    ensures 0 in t && t[0].sims == t0[0].sims + k
  {
    RootInLine(t0, n);
  }

  lemma ConcludedRoot<S>(t0: Nodes<S>, t: Nodes<S>, n: nat, r: Outcome, rollouts: nat)
    requires Shape(t0) && n in t0 && Concluded(t0, t, n, r, rollouts) && rollouts > 0
    ensures 0 in t && t[0].sims > t0[0].sims
  {
    hide Line, Shape;
    ShapeRooted(t0);
    RootInLine(t0, n);
    MarkDeadLine(t0, n, n);
    if r.Refuted? {
      RootCredited(MarkDead(t0, n), t, n, -1.0, 1);
    } else if r.Solved? {
      RootCredited(t0, t, n, r.score, rollouts);
    } else {
      RootCredited(t0, t, n, -1.0, 1);
    }
  }

  lemma RootCredited<S>(t0: Nodes<S>, t: Nodes<S>, n: nat, r: real, k: nat)
    requires Rooted(t0) && n in t0 && Backed(t0, t, n, r, k) && 0 in Line(t0, n) && 0 in t0
    ensures 0 in t && t[0].sims == t0[0].sims + k
  {
    hide Line;
  }

  lemma {:induction false} MarkDeadLine<S>(t: Nodes<S>, v: nat, n: int)
    requires Rooted(t) && v in t && (n >= 0 ==> n in t)
    ensures Rooted(MarkDead(t, v)) && Line(MarkDead(t, v), n) == Line(t, n)
    decreases n
  {
    if n >= 0 { MarkDeadLine(t, v, t[n].pred); }
  }

  lemma KidsMean<S(!new)>(d: Domain<S>, th: Theory<S>, c: Core<S>, kids: seq<Core<S>>)
    requires Means(d, th) && KidsOk(d, c, kids)
    requires Solvable(d, c.point) ==> exists k <- kids :: Solvable(d, k.point)
    ensures forall k <- kids :: th.valid(k) && th.child(c, k)
    ensures th.live(c) ==> exists k <- kids :: th.live(k)
  {
    if th.live(c) {
      var k :| k in kids && Solvable(d, k.point);
      assert th.live(k);
    }
  }

  /** A node's mean value; selected nodes have been visited, so the divisor is not zero. */
  function Mean<S>(v: TreeNode<S>): (r: real)
    ensures v.sims > 0 ==> r * v.sims as real == v.score
  {
    if v.sims == 0 then 0.0 else v.score / v.sims as real
  }

  lemma KidsPresent<S>(t: Nodes<S>, v: nat)
    requires Shape(t) && v in t
    ensures forall c <- t[v].successors :: c in t
  {
    assert NodeShape(t, v);
    forall c | c in t[v].successors
      ensures c in t
    {
      assert IsKid(t[v], c);
    }
  }

  lemma SingleGood<S(!new)>(d: Domain<S>, th: Theory<S>, c: Core<S>)
    requires Means(d, th) && Valid(c.point.net)
    ensures Good(th, map[0 := NewNode(c, -1)]) && Visited(map[0 := NewNode(c, -1)], {})
  {
    var t: Nodes<S> := map[0 := NewNode(c, -1)];
    assert t.Keys == {0} && |t.Keys| == 1;
  }

  // ----- Early commit -----

  /** The root's children are all generated, and `c` is the only one not refuted. */
  ghost predicate Settled<S>(t: Nodes<S>, c: nat) {
    0 in t && t[0].unexplored == [] && LiveKid(t, 0, c) && forall x :: LiveKid(t, 0, x) ==> x == c
  }

  /** Once the early-commit test fires, any further search commits to the same child or to none. */
  lemma EarlyCommitIsFinal<S>(t: Nodes<S>, later: Nodes<S>, c: nat)
    requires Shape(t) && Settled(t, c) && Later(t, later)
    ensures forall x :: LiveKid(later, 0, x) ==> x == c
  {
    KidsPresent(t, 0);
    assert NodeLater(t[0], later[0]);
    forall x | LiveKid(later, 0, x)
      ensures x == c
    {
      assert IsKid(later[0], x) && IsKid(t[0], x);
      assert NodeLater(t[x], later[x]);
      assert LiveKid(t, 0, x);
    }
  }

  /** With every explored child of the root refuted, there is a solution from the root exactly when
      there is one from a child not explored yet, unless the root itself is marked. */
  lemma NoneLeftExactly<S(!new)>(d: Domain<S>, th: Theory<S>, t: Nodes<S>)
    requires Means(d, th) && Good(th, t) && (t[0].deadend || HasKids(t[0])) && forall c :: !LiveKid(t, 0, c)
    ensures Solvable(d, t[0].core.point) <==>
            !t[0].deadend && exists c :: c in t[0].unexplored && c in t && Solvable(d, t[c].core.point)
  {
    assert NodeHonest(th, t, 0) && NodeShape(t, 0);
    if t[0].deadend {
      return;
    }
    if Solvable(d, t[0].core.point) {
      var c: nat :| IsKid(t[0], c) && c in t && th.live(t[c].core);
      assert !LiveKid(t, 0, c) && NodeHonest(th, t, c);
    }
    if c :| c in t[0].unexplored && c in t && Solvable(d, t[c].core.point) {
      assert IsKid(t[0], c) && IsChild(d, t[0].core, t[c].core);
      ChildSolves(d, t[0].core, t[c].core);
    }
  }

  lemma ChildSolves<S(!new)>(d: Domain<S>, a: Core<S>, c: Core<S>)
    requires IsChild(d, a, c) && Solvable(d, c.point)
    ensures Solvable(d, a.point)
  {
    var mv :| Can(d, a.point, mv) && ChildBy(d, a, c, mv);
    assert a.point.net.tasks != map[] by {
      assert mv.t in a.point.net.tasks;
    }
    SolvableByMove(d, a.point);
  }

  /** The guard under which the report is a proof: the root marked, or every child explored. */
  predicate Proves<S>(v: TreeNode<S>) {
    v.deadend || (v.successors != [] && v.unexplored == [])
  }

  /** Under it there is no solution at all from the root. */
  lemma NoneLeftIsProof<S(!new)>(d: Domain<S>, th: Theory<S>, t: Nodes<S>)
    requires Means(d, th) && Good(th, t) && (forall c :: !LiveKid(t, 0, c)) && Proves(t[0])
    ensures !Solvable(d, t[0].core.point)
  {
    NoneLeftExactly(d, th, t);
  }

  lemma RootVisited<S>(t: Nodes<S>)
    requires Shape(t) && Visited(t, {0})
    ensures Visited(t, {})
  {
    forall v, c | v in t && c in t[v].successors && c in t
      ensures t[c].sims > 0
    {
      assert NodeShape(t, v) && NodeShape(t, 0) && IsKid(t[v], c);
    }
  }

  lemma SeenVisited<S>(t: Nodes<S>, n: nat)
    requires Visited(t, {n}) && n in t && t[n].sims > 0
    ensures Visited(t, {})
  {
  }

  lemma LaterSelf<S>(t: Nodes<S>)
    ensures Later(t, t)
  {
  }

  lemma VisitedStays<S>(t: Nodes<S>, n: nat)
    requires Visited(t, {})
    ensures Visited(t, {n})
  {
  }

  lemma LaterRoot<S>(a: Nodes<S>, b: Nodes<S>)
    requires Shape(a) && Later(a, b)
    ensures 0 in a && 0 in b && a[0].sims <= b[0].sims
  {
  }

  lemma MarkDeadPending<S>(t: Nodes<S>, v: nat)
    requires Visited(t, {v}) && v in t
    ensures Visited(MarkDead(t, v), {v})
  {
  }

  lemma DeadIfRefuted<S(!new)>(d: Domain<S>, th: Theory<S>, c: Core<S>)
    requires Means(d, th) && !Solvable(d, c.point)
    ensures !th.live(c)
  {
  }

  lemma NodeValid<S(!new)>(d: Domain<S>, th: Theory<S>, t: Nodes<S>, n: nat)
    requires Means(d, th) && Good(th, t) && n in t
    ensures Valid(t[n].core.point.net)
  {
    assert NodeHonest(th, t, n);
  }
}
