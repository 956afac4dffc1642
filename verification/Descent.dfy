/** What the precondition modes promise of the tasks a method gives rise to (lib/typedefs.h,
    `MethodDef::apply_binding`, and namespace `mprec` of lib/cpphop/cppMCTShop.h): the subtasks of a
    decomposition, those of its subtasks, and so on down. */
module Descent {
  import opened Basics
  import opened Networks
  import opened Progression
  import opened Exchange
  import opened Completeness
  import opened Rollout
  import opened Preconditions

  // ----- Descent -----

  function IdsFrom(from: nat, k: nat): (s: set<nat>)
    ensures forall x: nat :: x in s <==> from <= x < from + k
  {
    if k == 0 then {} else IdsFrom(from, k - 1) + {from + k - 1}
  }

  /** The method of a step that decomposes. */
  ghost function MethodAt<S>(d: Domain<S>, p: Point<S>, run: seq<Move<S>>, e: nat): Body
    requires IsRun(d, p, run) && e < |run| && run[e].Decompose?
  {
    TraceStep(d, p, run, e);
    d.methods[Trace(d, p, run)[e].net.tasks[run[e].t].head][run[e].mi].body
  }

  /** The tasks that, before step `j`, have come of the decomposition of step `e`: its subtasks, and those
      of any later decomposition of one of them. */
  ghost function Below<S>(d: Domain<S>, p: Point<S>, run: seq<Move<S>>, e: nat, j: nat): set<nat>
    requires IsRun(d, p, run) && e < j <= |run| && run[e].Decompose?
    decreases j
  {
    if j == e + 1 then IdsFrom(Trace(d, p, run)[e].net.next, |MethodAt(d, p, run, e).subs|)
    else
      var above := Below(d, p, run, e, j - 1);
      if run[j - 1].Decompose? && run[j - 1].t in above then
        above + IdsFrom(Trace(d, p, run)[j - 1].net.next, |MethodAt(d, p, run, j - 1).subs|)
      else above
  }

  /** Does a method have a precondition to check? */
  ghost predicate Checked(m: Body) {
    exists s <- m.subs :: s.name == PRE_LABEL
  }

  lemma GroundedCarries<S>(d: Domain<S>, n: Net, t: nat, m: Body, b: Binding, k: nat, x: nat)
    requires Valid(n) && t in n.tasks && d.mode != Compiled && x in Ground(d.mode, n, t, m, b).tasks
    ensures x < n.next ==> x in n.tasks && Ground(d.mode, n, t, m, b).tasks[x] == n.tasks[x]
    ensures x >= n.next ==> x < n.next + |m.subs|
    ensures x >= n.next ==> (k in Ground(d.mode, n, t, m, b).tasks[x].checks <==>
                             k in n.tasks[t].checks || (k == |n.checks| && Checked(m)))
  {
    GroundTask(d.mode, n, t, m, b, x);
    if x >= n.next {
      GroundedTask(d.mode, n, t, m, b, x - n.next);
    }
  }

  /** The tasks that carry a decomposition's check are exactly those that come of it. */
  lemma {:induction false} BelowCarries<S>(d: Domain<S>, p: Point<S>, run: seq<Move<S>>, e: nat, j: nat)
    requires d.mode != Compiled && LoaderShapes(d) && Fresh(p.net) && IsRun(d, p, run)
    requires e < j <= |run| && run[e].Decompose? && Checked(MethodAt(d, p, run, e))
    ensures var n, k := Trace(d, p, run)[j].net, |Trace(d, p, run)[e].net.checks|;
      && k < |n.checks| && (forall x <- Below(d, p, run, e, j) :: x < n.next)
      && forall x <- n.tasks :: k in n.tasks[x].checks <==> x in Below(d, p, run, e, j)
    decreases j
  {
    hide Ground, AfterAct, LoaderShapes, Fresh, EstablishersMatch, CacheOk, LinksHeld;
    var tr := Trace(d, p, run);
    var q, k := tr[j - 1], |tr[e].net.checks|;
    SoundAlong(d, p, run, j - 1);
    TraceStep(d, p, run, j - 1);
    if j > e + 1 {
      BelowCarries(d, p, run, e, j - 1);
    }
    match run[j - 1]
    case Act(t, to) =>
      AfterActShape(d, q.net, t);
    case Decompose(t, mi, b) =>
      var m := MethodAt(d, p, run, j - 1);
      assert m == d.methods[q.net.tasks[t].head][mi].body;
      if j == e + 1 {
        FirstBelow(d, q.net, t, m, b);
      } else {
        MoreBelow(d, q.net, t, m, b, k, Below(d, p, run, e, j - 1));
      }
  }

  lemma FirstBelow<S>(d: Domain<S>, n: Net, t: nat, m: Body, b: Binding)
    requires Valid(n) && t in n.tasks && d.mode != Compiled && Checked(m)
    ensures var g := Ground(d.mode, n, t, m, b);
      && |n.checks| < |g.checks| && g.next == n.next + |m.subs|
      && forall x <- g.tasks :: |n.checks| in g.tasks[x].checks <==> x in IdsFrom(n.next, |m.subs|)
  {
    var g := Ground(d.mode, n, t, m, b);
    assert HasPre(m);
    forall x | x in g.tasks
      ensures |n.checks| in g.tasks[x].checks <==> x in IdsFrom(n.next, |m.subs|)
    {
      GroundedCarries(d, n, t, m, b, |n.checks|, x);
    }
  }

  lemma MoreBelow<S>(d: Domain<S>, n: Net, t: nat, m: Body, b: Binding, k: nat, above: set<nat>)
    requires Valid(n) && t in n.tasks && d.mode != Compiled && k < |n.checks| && (forall x <- above :: x < n.next)
    requires forall x <- n.tasks :: k in n.tasks[x].checks <==> x in above
    ensures var g := Ground(d.mode, n, t, m, b);
      var below := if t in above then above + IdsFrom(n.next, |m.subs|) else above;
      && k < |g.checks| && (forall x <- below :: x < g.next)
      && forall x <- g.tasks :: k in g.tasks[x].checks <==> x in below
  {
    var g := Ground(d.mode, n, t, m, b);
    forall x | x in g.tasks
      ensures k in g.tasks[x].checks <==> if t in above then x in above + IdsFrom(n.next, |m.subs|) else x in above
    {
      GroundedCarries(d, n, t, m, b, k, x);
    }
  }

  // ----- The first real action -----

  /** Step `i` is a real action that comes of the decomposition of step `e`. */
  ghost predicate ActsBelow<S>(d: Domain<S>, p: Point<S>, run: seq<Move<S>>, e: nat, i: nat)
    requires IsRun(d, p, run) && e < i < |run| && run[e].Decompose?
  {
    TraceStep(d, p, run, i);
    run[i].Act? && IsReal(d, Trace(d, p, run)[i].net, run[i].t) && run[i].t in Below(d, p, run, e, i)
  }

  /** Step `i` is the first. */
  ghost predicate ActsFirst<S>(d: Domain<S>, p: Point<S>, run: seq<Move<S>>, e: nat, i: nat)
    requires IsRun(d, p, run) && e < i < |run| && run[e].Decompose?
  {
    ActsBelow(d, p, run, e, i) && forall j :: e < j < i ==> !ActsBelow(d, p, run, e, j)
  }

  lemma CarriesBelow<S>(d: Domain<S>, p: Point<S>, run: seq<Move<S>>, e: nat, j: nat)
    requires d.mode != Compiled && LoaderShapes(d) && Fresh(p.net) && IsRun(d, p, run)
    requires e < |run| && run[e].Decompose? && Checked(MethodAt(d, p, run, e)) && j < |run|
    ensures Carries(d, p, run, j, |Trace(d, p, run)[e].net.checks|) <==> e < j && ActsBelow(d, p, run, e, j)
  {
    var tr := Trace(d, p, run);
    TraceStep(d, p, run, j);
    SoundAlong(d, p, run, j);
    if e < j {
      BelowCarries(d, p, run, e, j);
    } else {
      NoneYet(d, p, run, j, e);
    }
  }

  /** Checks are only added. */
  lemma NoneYet<S>(d: Domain<S>, p: Point<S>, run: seq<Move<S>>, i: nat, j: nat)
    requires d.mode != Compiled && LoaderShapes(d) && Fresh(p.net) && IsRun(d, p, run) && i <= j <= |run|
    ensures |Trace(d, p, run)[i].net.checks| <= |Trace(d, p, run)[j].net.checks|
  {
    var k := |Trace(d, p, run)[i].net.checks|;
    if k > 0 {
      CheckPersists(d, p, run, i, j, k - 1);
    }
  }

  lemma FirstCarries<S>(d: Domain<S>, p: Point<S>, run: seq<Move<S>>, e: nat, i: nat)
    requires d.mode != Compiled && LoaderShapes(d) && Fresh(p.net) && IsRun(d, p, run)
    requires e < i < |run| && run[e].Decompose? && Checked(MethodAt(d, p, run, e)) && ActsFirst(d, p, run, e, i)
    ensures FirstCarrier(d, p, run, i, |Trace(d, p, run)[e].net.checks|)
  {
    hide Carries, ActsBelow;
    CarriesBelow(d, p, run, e, i);
    forall j | 0 <= j < i
      ensures !Carries(d, p, run, j, |Trace(d, p, run)[e].net.checks|)
    {
      CarriesBelow(d, p, run, e, j);
    }
  }

  // ----- The precondition -----

  /** The method's precondition under the binding, in a state: its check's action holds of the arguments
      the binding gives. */
  ghost predicate MethodHolds<S>(d: Domain<S>, m: Body, b: Binding, s: S) {
    forall i, args: Args :: 0 <= i < |m.subs| && m.subs[i].name == PRE_LABEL && Filled(m.subs[i].args, b, args) ==>
      Holds(d, s, m.subs[i].head, args)
  }

  ghost predicate Filled(args: seq<Arg>, b: Binding, vs: Args) {
    |vs| == |args| && forall j :: 0 <= j < |vs| ==> Substituted(args[j].name, b, vs[j])
  }

  lemma {:induction false} OneValue(name: string, b: Binding, v: string, w: string, k: nat)
    requires Substituted(name, b, v) && Substituted(name, b, w) && k <= |b| && forall l :: 0 <= l < k ==> b[l].0 != name
    ensures v == w
    decreases |b| - k
  {
    if k < |b| && b[k].0 != name {
      OneValue(name, b, v, w, k + 1);
    }
  }

  lemma OneFilling(args: seq<Arg>, b: Binding, vs: Args, ws: Args)
    requires Filled(args, b, vs) && Filled(args, b, ws)
    ensures vs == ws
  {
    forall j | 0 <= j < |vs|
      ensures vs[j] == ws[j]
    {
      OneValue(args[j].name, b, vs[j], ws[j], 0);
    }
  }

  /** The check that a decomposition records. */
  lemma Recorded<S>(d: Domain<S>, p: Point<S>, run: seq<Move<S>>, e: nat) returns (i: nat)
    requires d.mode != Compiled && LoaderShapes(d) && Fresh(p.net) && IsRun(d, p, run)
    requires e < |run| && run[e].Decompose? && Checked(MethodAt(d, p, run, e))
    ensures var m, checks, k := MethodAt(d, p, run, e), Trace(d, p, run)[e +
        1].net.checks, |Trace(d, p, run)[e].net.checks|;
      && LabelsOk(m) && i < |m.subs| && m.subs[i].name == PRE_LABEL
      && k < |checks| && checks[k].action == m.subs[i].head && Filled(m.subs[i].args, run[e].b, checks[k].args)
  {
    hide Substituted, Sound, Ground;
    var n, m := Trace(d, p, run)[e].net, MethodAt(d, p, run, e);
    TraceStep(d, p, run, e);
    i :| 0 <= i < |m.subs| && m.subs[i].name == PRE_LABEL;
    GroundedCheck(d.mode, n, run[e].t, m, run[e].b, i);
  }

  /** Check `k`, recorded by step `e`, holds exactly when the method's precondition does. */
  lemma CheckIsMethod<S>(d: Domain<S>, p: Point<S>, run: seq<Move<S>>, e: nat, j: nat)
    requires d.mode != Compiled && LoaderShapes(d) && Fresh(p.net) && IsRun(d, p, run)
    requires e < j <= |run| && run[e].Decompose? && Checked(MethodAt(d, p, run, e))
    ensures var q, k := Trace(d, p, run)[j], |Trace(d, p, run)[e].net.checks|;
      k < |q.net.checks| && (CheckHolds(d, q, k) <==> MethodHolds(d, MethodAt(d, p, run, e), run[e].b, q.state))
  {
    hide Filled, Persists, MethodHolds, LabelsOk, LoaderShapes, Fresh;
    var tr, m, b := Trace(d, p, run), MethodAt(d, p, run, e), run[e].b;
    var k := |tr[e].net.checks|;
    var i := Recorded(d, p, run, e);
    CheckPersists(d, p, run, e + 1, j, k);
    SameCheck(tr[e + 1].net, tr[j].net, k);
    OnlyPre(d, m, b, i, tr[e + 1].net.checks[k].args, tr[j].state);
  }

  /** Look-ahead asks whether the method's precondition holds. */
  lemma LooksGoodMeans<S>(d: Domain<S>, m: Body, b: Binding, s: S)
    requires LabelsOk(m)
    ensures LooksGood(d, m, b, s) <==> MethodHolds(d, m, b, s)
  {
    hide MethodHolds;
    if HasPre(m) {
      var i := PreIndex(m);
      var args := CheckArgs(m.subs[i].args, b);
      assert Filled(m.subs[i].args, b, args) by {
        forall j | 0 <= j < |args|
          ensures Substituted(m.subs[i].args[j].name, b, args[j])
        {
          ValueSubstituted(m.subs[i].args[j].name, b);
        }
      }
      OnlyPre(d, m, b, i, args, s);
    } else {
      NothingToHold(d, m, b, s);
    }
  }

  lemma SameCheck(a: Net, b: Net, k: nat)
    requires Persists(a, b, k)
    ensures k < |a.checks| && k < |b.checks| && b.checks[k].action == a.checks[k].action
    ensures b.checks[k].args == a.checks[k].args
  {
  }

  lemma OnlyPre<S>(d: Domain<S>, m: Body, b: Binding, i: nat, args: Args, s: S)
    requires LabelsOk(m) && i < |m.subs| && m.subs[i].name == PRE_LABEL && Filled(m.subs[i].args, b, args)
    ensures Holds(d, s, m.subs[i].head, args) <==> MethodHolds(d, m, b, s)
  {
    hide Filled;
    forall l, vs: Args | 0 <= l < |m.subs| && m.subs[l].name == PRE_LABEL && Filled(m.subs[l].args, b, vs)
      ensures l == i && vs == args
    {
      OneFilling(m.subs[i].args, b, vs, args);
    }
  }

  /** Outside Compiled mode: a method's precondition holds in the state where the first real action that
      comes of it, however far down, is carried out. */
  lemma AtStartBelow<S>(d: Domain<S>, p: Point<S>, run: seq<Move<S>>, e: nat, i: nat)
    requires d.mode != Compiled && LoaderShapes(d) && Fresh(p.net) && IsRun(d, p, run)
    requires e < i < |run| && run[e].Decompose? && ActsFirst(d, p, run, e, i)
    ensures MethodHolds(d, MethodAt(d, p, run, e), run[e].b, Trace(d, p, run)[i].state)
  {
    hide ActsFirst, FirstCarrier, MethodHolds, CheckHolds;
    if Checked(MethodAt(d, p, run, e)) {
      FirstCarries(d, p, run, e, i);
      AtStartHolds(d, p, run, i, |Trace(d, p, run)[e].net.checks|);
      CheckIsMethod(d, p, run, e, i);
    } else {
      NothingToHold(d, MethodAt(d, p, run, e), run[e].b, Trace(d, p, run)[i].state);
    }
  }

  lemma NothingToHold<S>(d: Domain<S>, m: Body, b: Binding, s: S)
    requires !Checked(m)
    ensures MethodHolds(d, m, b, s)
  {
    assert forall i :: 0 <= i < |m.subs| ==> m.subs[i] in m.subs;
  }

  /** Protected: there is a step between the decomposition and that action which checks the precondition,
      and from there to the action it holds in every state. */
  lemma ProtectedBelow<S>(d: Domain<S>, p: Point<S>, run: seq<Move<S>>, e: nat, i: nat) returns (c: nat)
    requires d.mode == Protected && LoaderShapes(d) && Fresh(p.net) && IsRun(d, p, run)
    requires e < i < |run| && run[e].Decompose? && ActsFirst(d, p, run, e, i) && Checked(MethodAt(d, p, run, e))
    ensures e < c < i && run[c].Act? && run[c].t in Trace(d, p, run)[c].net.tasks
    ensures exists s <- MethodAt(d, p, run, e).subs ::
      s.name == PRE_LABEL && Trace(d, p, run)[c].net.tasks[run[c].t].head == s.head
    ensures forall j :: c <= j <= i ==> MethodHolds(d, MethodAt(d, p, run, e), run[e].b, Trace(d, p, run)[j].state)
  {
    hide ActsFirst, FirstCarrier, MethodHolds, CheckHolds;
    var tr, k := Trace(d, p, run), |Trace(d, p, run)[e].net.checks|;
    FirstCarries(d, p, run, e, i);
    c := ProtectedThroughout(d, p, run, i, k);
    SoundAlong(d, p, run, c);
    TraceStep(d, p, run, c);
    if c <= e {
      NoneYet(d, p, run, c, e);
      assert false;
    }
    CheckedBy(d, p, run, e, c);
    forall j | c <= j <= i
      ensures MethodHolds(d, MethodAt(d, p, run, e), run[e].b, tr[j].state)
    {
      CheckIsMethod(d, p, run, e, j);
    }
  }

  lemma EstablisherHead<S>(d: Domain<S>, q: Point<S>, t: nat, k: nat)
    requires Sound(d, q) && t in q.net.tasks && q.net.tasks[t].establishes == Some(k)
    ensures k < |q.net.checks| && q.net.tasks[t].head == q.net.checks[k].action
  {
  }

  /** The step that establishes a method's check carries out its precondition task. */
  lemma CheckedBy<S>(d: Domain<S>, p: Point<S>, run: seq<Move<S>>, e: nat, c: nat)
    requires d.mode != Compiled && LoaderShapes(d) && Fresh(p.net) && IsRun(d, p, run)
    requires e < c < |run| && run[e].Decompose? && Checked(MethodAt(d, p, run, e))
    requires Establishes(d, p, run, c, |Trace(d, p, run)[e].net.checks|)
    ensures run[c].Act? && run[c].t in Trace(d, p, run)[c].net.tasks
    ensures exists s <- MethodAt(d, p, run, e).subs ::
      s.name == PRE_LABEL && Trace(d, p, run)[c].net.tasks[run[c].t].head == s.head
  {
    hide Persists, Filled, LabelsOk, Sound, LinksHeld, LoaderShapes, Fresh;
    var tr, m := Trace(d, p, run), MethodAt(d, p, run, e);
    var k := |tr[e].net.checks|;
    TraceStep(d, p, run, c);
    SoundAlong(d, p, run, c);
    EstablisherHead(d, tr[c], run[c].t, k);
    var i := Recorded(d, p, run, e);
    CheckPersists(d, p, run, e + 1, c, k);
    SameCheck(tr[e + 1].net, tr[c].net, k);
    assert m.subs[i] in m.subs;
  }

  // ----- The precondition task comes first -----

  lemma {:induction false} ValidAlong<S>(d: Domain<S>, p: Point<S>, run: seq<Move<S>>, j: nat)
    requires Valid(p.net) && IsRun(d, p, run) && j <= |run|
    ensures Valid(Trace(d, p, run)[j].net)
  {
    if j > 0 {
      ValidAlong(d, p, run, j - 1);
      TraceStep(d, p, run, j - 1);
      NextValid(d, Trace(d, p, run)[j - 1], run[j - 1]);
    }
  }

  /** The precondition task `x` of a decomposition is still to be carried out: it is there, with its head
      and arguments, and every other task that came with it is ordered after it. */
  ghost predicate Waiting<S>(d: Domain<S>, n: Net, m: Body, b: Binding, first: nat) {
    && LoaderShape(d, m) && HasPre(m)
    && var x, pre := first + PreIndex(m), m.subs[PreIndex(m)];
    && x in n.tasks && n.tasks[x].head == pre.head && Filled(pre.args, b, n.tasks[x].args) && first + |m.subs| <= n.next
    && forall y :: first <= y < first + |m.subs| && y != x ==> (x, y) in n.edges
  }

  lemma WaitsAtFirst<S>(d: Domain<S>, n: Net, t: nat, m: Body, b: Binding)
    requires Valid(n) && t in n.tasks && LoaderShape(d, m) && HasPre(m)
    ensures Waiting(d, Ground(d.mode, n, t, m, b), m, b, n.next)
  {
    hide Ground, Filled;
    var g, i := Ground(d.mode, n, t, m, b), PreIndex(m);
    var x := n.next + i;
    GroundedTask(d.mode, n, t, m, b, i);
    PreFilled(d, m, b, g.tasks[x].args);
    GroundKeeps(d.mode, n, t, m, b);
    forall y | n.next <= y < n.next + |m.subs| && y != x
      ensures (x, y) in g.edges
    {
      GroundEdge(d.mode, n, t, m, b, x, y);
    }
  }

  /** The loader records no constants of a precondition task. */
  lemma PreFilled<S>(d: Domain<S>, m: Body, b: Binding, vs: Args)
    requires LoaderShape(d, m) && HasPre(m) && |vs| == |m.subs[PreIndex(m)].args|
    requires forall j :: 0 <= j < |vs| && !m.subs[PreIndex(m)].args[j].constant ==>
      Substituted(m.subs[PreIndex(m)].args[j].name, b, vs[j])
    ensures Filled(m.subs[PreIndex(m)].args, b, vs)
  {
  }

  /** Moves elsewhere keep it waiting. */
  lemma WaitsOn<S>(d: Domain<S>, p: Point<S>, mv: Move<S>, m: Body, b: Binding, first: nat)
    requires Valid(p.net) && Can(d, p, mv) && Waiting(d, p.net, m, b, first)
    requires !(first <= mv.t < first + |m.subs|)
    ensures Waiting(d, Next(d, p, mv).net, m, b, first)
  {
    hide Filled, LoaderShape, Ground, AfterAct;
    var n, x := p.net, first + PreIndex(m);
    match mv
    case Act(t, to) =>
      AfterActShape(d, n, t);
      AfterActEdges(d, n, t);
    case Decompose(t, mi, c) =>
      var body := d.methods[n.tasks[t].head][mi].body;
      GroundKeeps(d.mode, n, t, body, c);
      forall y | first <= y < first + |m.subs| && y != x
        ensures (x, y) in Ground(d.mode, n, t, body, c).edges
      {
        GroundEdge(d.mode, n, t, body, c, x, y);
      }
  }

  lemma GroundKeeps(mode: Mode, n: Net, t: nat, m: Body, b: Binding)
    requires Valid(n) && t in n.tasks
    ensures var g := Ground(mode, n, t, m, b);
      g.next == n.next + |m.subs| && forall x <- n.tasks :: x != t ==> x in g.tasks && g.tasks[x] == n.tasks[x]
  {
  }

  /** Only the precondition task itself may be moved while it waits, and that is to check the precondition. */
  lemma WaitsMoved<S>(d: Domain<S>, p: Point<S>, mv: Move<S>, m: Body, b: Binding, first: nat)
    requires Can(d, p, mv) && Waiting(d, p.net, m, b, first) && first <= mv.t < first + |m.subs|
    ensures mv.Act? && mv.t == first + PreIndex(m) && MethodHolds(d, m, b, p.state)
  {
    hide Filled, MethodHolds;
    var n, x := p.net, first + PreIndex(m);
    assert Free(n, mv.t);
    assert mv.t != x ==> (x, mv.t) in n.edges;
    OnlyPre(d, m, b, PreIndex(m), p.net.tasks[mv.t].args, p.state);
  }

  /** Up to step `j` the precondition task has been waiting since the decomposition of step `e`, and nothing
      that comes of it has been moved. */
  ghost predicate WaitedTo<S>(d: Domain<S>, p: Point<S>, run: seq<Move<S>>, e: nat, j: nat)
    requires IsRun(d, p, run) && e < j <= |run| && run[e].Decompose?
  {
    var first, m := Trace(d, p, run)[e].net.next, MethodAt(d, p, run, e);
    && Waiting(d, Trace(d, p, run)[j].net, m, run[e].b, first)
    && Below(d, p, run, e, j) == IdsFrom(first, |m.subs|)
    && forall l :: e < l < j ==> run[l].t !in Below(d, p, run, e, l)
  }

  /** Step `c` carries out the precondition task of the decomposition of step `e`, where the precondition
      holds and before anything else that comes of it is moved. */
  ghost predicate ChecksFirst<S>(d: Domain<S>, p: Point<S>, run: seq<Move<S>>, e: nat, c: nat)
    requires IsRun(d, p, run) && e < c < |run| && run[e].Decompose?
  {
    var m := MethodAt(d, p, run, e);
    && run[c].Act? && run[c].t in Trace(d, p, run)[c].net.tasks
    && (exists s <- m.subs :: s.name == PRE_LABEL && Trace(d, p, run)[c].net.tasks[run[c].t].head == s.head)
    && MethodHolds(d, m, run[e].b, Trace(d, p, run)[c].state)
    && forall l :: e < l < c ==> run[l].t !in Below(d, p, run, e, l)
  }

  lemma WaitedBegin<S>(d: Domain<S>, p: Point<S>, run: seq<Move<S>>, e: nat)
    requires LoaderShapes(d) && Valid(p.net) && IsRun(d, p, run)
    requires e < |run| && run[e].Decompose? && Checked(MethodAt(d, p, run, e))
    ensures WaitedTo(d, p, run, e, e + 1)
  {
    var n, m := Trace(d, p, run)[e].net, MethodAt(d, p, run, e);
    ValidAlong(d, p, run, e);
    TraceStep(d, p, run, e);
    assert HasPre(m);
    WaitsAtFirst(d, n, run[e].t, m, run[e].b);
  }

  /** One more step: the precondition task is carried out, or goes on waiting. */
  lemma WaitedStep<S>(d: Domain<S>, p: Point<S>, run: seq<Move<S>>, e: nat, j: nat)
    requires Valid(p.net) && IsRun(d, p, run) && e < j < |run| && run[e].Decompose? && WaitedTo(d, p, run, e, j)
    ensures if run[j].t in Below(d, p, run, e, j) then ChecksFirst(d, p, run, e, j) else WaitedTo(d, p, run, e, j + 1)
  {
    hide Waiting, MethodHolds;
    var tr, m, b := Trace(d, p, run), MethodAt(d, p, run, e), run[e].b;
    var first := tr[e].net.next;
    ValidAlong(d, p, run, j);
    TraceStep(d, p, run, j);
    if run[j].t in Below(d, p, run, e, j) {
      WaitsMoved(d, tr[j], run[j], m, b, first);
      WaitingTask(d, tr[j].net, m, b, first);
      assert m.subs[PreIndex(m)] in m.subs;
    } else {
      WaitsOn(d, tr[j], run[j], m, b, first);
    }
  }

  lemma WaitingTask<S>(d: Domain<S>, n: Net, m: Body, b: Binding, first: nat)
    requires Waiting(d, n, m, b, first)
    ensures HasPre(m) && first + PreIndex(m) in n.tasks
    ensures n.tasks[first + PreIndex(m)].head == m.subs[PreIndex(m)].head
  {
  }

  /** In every mode: nothing that comes of a method with a precondition is moved before the precondition has
      been checked, in a state where it holds. */
  lemma {:induction false} CheckedFirst<S>(d: Domain<S>, p: Point<S>, run: seq<Move<S>>, e: nat, j: nat)
      returns (c: nat)
    requires LoaderShapes(d) && Valid(p.net) && IsRun(d, p, run)
    requires e < j <= |run| && run[e].Decompose? && Checked(MethodAt(d, p, run, e))
    ensures e < c <= j
    ensures if c < j then ChecksFirst(d, p, run, e, c) else WaitedTo(d, p, run, e, j)
    decreases j
  {
    hide ChecksFirst, WaitedTo, LoaderShapes, Checked;
    if j == e + 1 {
      WaitedBegin(d, p, run, e);
      c := j;
    } else {
      c := CheckedFirst(d, p, run, e, j - 1);
      if c == j - 1 {
        WaitedStep(d, p, run, e, c);
        c := if run[c].t in Below(d, p, run, e, c) then c else j;
      }
    }
  }

  /** So the first real action of what comes of it follows such a check. */
  lemma CompiledBelow<S>(d: Domain<S>, p: Point<S>, run: seq<Move<S>>, e: nat, i: nat) returns (c: nat)
    requires LoaderShapes(d) && Valid(p.net) && IsRun(d, p, run)
    requires e < i < |run| && run[e].Decompose? && Checked(MethodAt(d, p, run, e)) && ActsBelow(d, p, run, e, i)
    ensures e < c < i && ChecksFirst(d, p, run, e, c)
  {
    hide ChecksFirst, LoaderShapes, Checked, Waiting;
    c := CheckedFirst(d, p, run, e, i);
    if c == i {
      TraceStep(d, p, run, i);
      WaitingNotReal(d, Trace(d, p, run)[i], run[i], MethodAt(d, p, run, e), run[e].b, Trace(d, p, run)[e].net.next);
    }
  }

  lemma WaitingNotReal<S>(d: Domain<S>, p: Point<S>, mv: Move<S>, m: Body, b: Binding, first: nat)
    requires Can(d, p, mv) && Waiting(d, p.net, m, b, first) && first <= mv.t < first + |m.subs|
    ensures mv.t in p.net.tasks && p.net.tasks[mv.t].head in d.actions && !IsReal(d, p.net, mv.t)
  {
    hide MethodHolds, Filled;
    WaitsMoved(d, p, mv, m, b, first);
  }
}
