/** The task tree a plan is reported with, and how a commit and a backtrack change it
    (lib/typedefs.h, `TaskNode`; lib/cpphop/cppMCTShop.h, the end of `seek_planMCTS`). */
module TaskTrees {
  import opened Basics
  import opened Networks
  import opened Progression
  import opened Exchange
  import opened Completeness
  import opened SearchTree
  import opened TreeSearch
  import opened Rollout

  datatype TaskNode = TaskNode(task: string, args: Args, way: string, children: seq<nat>, outgoing: set<nat>)

  type TaskTree = map<nat, TaskNode>

  datatype Undo = Undo(parent: int, added: seq<nat>)

  function Outgoing(n: Net, i: nat): (r: set<nat>)
    ensures forall j: nat :: j in r <==> (i, j) in n.edges
  {
    assert forall j: nat :: (i, j) in n.edges ==> (i, j).1 == j;
    set e | e in n.edges && e.0 == i :: e.1
  }

  function Leaf(n: Net, i: nat): TaskNode {
    if i in n.tasks then TaskNode(n.tasks[i].head, n.tasks[i].args, "", [], Outgoing(n, i))
    else TaskNode("", [], "", [], {})
  }

  /** The node has its task's head and arguments. */
  predicate Labelled(x: TaskNode, n: Net, i: nat) {
    i in n.tasks && x.task == n.tasks[i].head && x.args == n.tasks[i].args
  }

  // ----- Committing and undoing one decision -----

  /** The tree after new subtasks `added` of `parent`. */
  function Added(tt: TaskTree, n: Net, parent: nat, added: seq<nat>): TaskTree {
    if added == [] then tt
    else
      var k := |added| - 1;
      var b := Added(tt, n, parent, added[..k]);
      AddChild(b[added[k] := Leaf(n, added[k])], parent, added[k])
  }

  function AddChild(tt: TaskTree, parent: nat, i: nat): TaskTree {
    if parent in tt then tt[parent := tt[parent].(children := tt[parent].children + [i])] else tt
  }

  function SetWay(tt: TaskTree, parent: nat, way: string): TaskTree {
    if parent in tt then tt[parent := tt[parent].(way := way)] else tt
  }

  /** The tree after committing to the node with core `c`. */
  function Committed<S>(tt: TaskTree, c: Core<S>): TaskTree {
    if c.prev < 0 then tt else Added(SetWay(tt, c.prev, c.way), c.point.net, c.prev, c.added)
  }

  function Without(s: seq<nat>, out: seq<nat>): seq<nat> {
    if s == [] then [] else (if s[0] in out then [] else [s[0]]) + Without(s[1..], out)
  }

  /** The tree after taking a commit back. */
  function Undone(tt: TaskTree, u: Undo): TaskTree {
    Erased(if u.parent >= 0 then Cleared(tt, u.parent, u.added) else tt, u.added)
  }

  function Cleared(tt: TaskTree, parent: nat, added: seq<nat>): TaskTree {
    if parent in tt then tt[parent := tt[parent].(way := "", children := Without(tt[parent].children, added))] else tt
  }

  function Erased(tt: TaskTree, added: seq<nat>): TaskTree {
    map i | i in tt && i !in added :: tt[i]
  }

  function UndoOf<S>(c: Core<S>): Undo {
    Undo(c.prev, if c.prev < 0 then [] else c.added)
  }

  /** Every task of the network is an undecomposed leaf of the tree, with its head and arguments, and
      the tree's ids have all been handed out. */
  ghost predicate Fits(tt: TaskTree, n: Net) {
    && (forall i <- n.tasks :: i in tt && tt[i].way == "" && tt[i].children == [] && Labelled(tt[i], n, i))
    && (forall i <- tt :: i < n.next)
  }

  lemma {:induction false} AddedShape(tt: TaskTree, n: Net, parent: nat, added: seq<nat>)
    requires parent in tt && parent !in added
    requires forall i <- added :: i !in tt
    requires forall i, j :: 0 <= i < j < |added| ==> added[i] != added[j]
    ensures var b := Added(tt, n, parent, added);
      && b.Keys == tt.Keys + (set i | i in added)
      && b[parent] == tt[parent].(children := tt[parent].children + added)
      && (forall i <- added :: b[i] == Leaf(n, i))
      && (forall i <- tt :: i != parent ==> b[i] == tt[i])
  {
    if added != [] {
      var k := |added| - 1;
      assert added == added[..k] + [added[k]];
      AddedShape(tt, n, parent, added[..k]);
      assert added[k] !in added[..k];
      assert tt[parent].children + added == tt[parent].children + added[..k] + [added[k]];
    }
  }

  lemma {:induction false} WithoutAll(s: seq<nat>, out: seq<nat>)
    requires forall i <- s :: i in out
    ensures Without(s, out) == []
  {
    if s != [] { WithoutAll(s[1..], out); }
  }

  lemma NewIdsFresh(n: Net, m: Body)
    ensures forall i <- NewIds(n.next, |m.subs|) :: n.next <= i < n.next + |m.subs|
    ensures forall i, j :: 0 <= i < j < |NewIds(n.next, |m.subs|)| ==>
      NewIds(n.next, |m.subs|)[i] != NewIds(n.next, |m.subs|)[j]
  {
  }

  /** A committed child: what it must look like for the tree to take it. */
  ghost predicate Takes<S>(tt: TaskTree, c: Core<S>) {
    c.prev >= 0 ==>
      && c.prev in tt && tt[c.prev].way == "" && tt[c.prev].children == []
      && (forall i <- c.added :: i !in tt && i in c.point.net.tasks)
      && (forall i, j :: 0 <= i < j < |c.added| ==> c.added[i] != c.added[j])
  }

  /** Backtracking undoes a commit exactly. */
  lemma UndoInverts<S>(tt: TaskTree, c: Core<S>)
    requires Takes(tt, c)
    ensures Undone(Committed(tt, c), UndoOf(c)) == tt
  {
    if c.prev >= 0 {
      UndoAdded(tt, c.point.net, c.prev, c.way, c.added);
    }
  }

  lemma UndoAdded(tt: TaskTree, n: Net, p: nat, way: string, added: seq<nat>)
    requires p in tt && tt[p].way == "" && tt[p].children == [] && forall i <- added :: i !in tt
    requires forall i, j :: 0 <= i < j < |added| ==> added[i] != added[j]
    ensures Erased(Cleared(Added(SetWay(tt, p, way), n, p, added), p, added), added) == tt
  {
    var b := Added(SetWay(tt, p, way), n, p, added);
    AddedShape(SetWay(tt, p, way), n, p, added);
    ClearParent(tt, b, p, way, added);
    EraseAdded(tt, Cleared(b, p, added), added);
  }

  lemma ClearParent(tt: TaskTree, b: TaskTree, p: nat, way: string, added: seq<nat>)
    requires p in tt && tt[p].way == "" && tt[p].children == []
    requires b.Keys == tt.Keys + (set i | i in added)
    requires b[p] == SetWay(tt, p, way)[p].(children := SetWay(tt, p, way)[p].children + added)
    requires forall i <- tt :: i != p ==> b[i] == tt[i]
    ensures Cleared(b, p, added).Keys == b.Keys && forall i <- tt :: Cleared(b, p, added)[i] == tt[i]
  {
    assert b[p].children == added;
    WithoutAll(added, added);
  }

  lemma EraseAdded(tt: TaskTree, c: TaskTree, added: seq<nat>)
    requires c.Keys == tt.Keys + (set i | i in added) && (forall i <- tt :: c[i] == tt[i])
    requires forall i <- added :: i !in tt
    ensures Erased(c, added) == tt
  {
  }

  /** A child of a fitting node is taken by the tree, and fits after the commit. */
  lemma CommitFits<S(!new)>(d: Domain<S>, tt: TaskTree, a: Core<S>, c: Core<S>)
    requires Valid(a.point.net) && Fits(tt, a.point.net) && IsChild(d, a, c)
    ensures Takes(tt, c) && Fits(Committed(tt, c), c.point.net)
  {
    var mv :| Can(d, a.point, mv) && ChildBy(d, a, c, mv);
    var n := a.point.net;
    match mv
    case Act(t, to) =>
      AfterActShape(d, n, t);
    case Decompose(t, mi, b) =>
      var m := d.methods[n.tasks[t].head][mi].body;
      NewIdsFresh(n, m);
      DecomposeTakes(d, tt, n, t, m, b, c);
  }

  lemma GroundNext(mode: Mode, n: Net, t: nat, m: Body, b: Binding)
    requires t in n.tasks
    ensures Ground(mode, n, t, m, b).next == n.next + |m.subs|
  {
  }

  lemma DecomposeTakes<S>(d: Domain<S>, tt: TaskTree, n: Net, t: nat, m: Body, b: Binding, c: Core<S>)
    requires Valid(n) && t in n.tasks && Fits(tt, n)
    requires c.point.net == Ground(d.mode, n, t, m, b) && c.prev == t && c.added == NewIds(n.next, |m.subs|)
    ensures Takes(tt, c) && Fits(Committed(tt, c), c.point.net)
  {
    hide Added, Ground;
    NewIdsFresh(n, m);
    GroundNext(d.mode, n, t, m, b);
    forall i | i in c.added
      ensures i !in tt && i in c.point.net.tasks
    {
      GroundTaskAt(d.mode, n, t, m, b, i);
    }
    AddedShape(SetWay(tt, t, c.way), c.point.net, t, c.added);
    forall i | i in c.point.net.tasks
      ensures i in Committed(tt, c) && Committed(tt, c)[i].way == "" && Committed(tt, c)[i].children == []
      ensures Labelled(Committed(tt, c)[i], c.point.net, i)
    {
      DecomposeLeaf(d, tt, n, t, m, b, c, i);
    }
  }

  lemma DecomposeLeaf<S>(d: Domain<S>, tt: TaskTree, n: Net, t: nat, m: Body, b: Binding, c: Core<S>, i: nat)
    requires Valid(n) && t in n.tasks && Fits(tt, n) && i in Ground(d.mode, n, t, m, b).tasks
    requires c.point.net == Ground(d.mode, n, t, m, b) && c.prev == t && c.added == NewIds(n.next, |m.subs|)
    requires Committed(tt, c).Keys == tt.Keys + (set i | i in c.added)
    requires forall i <- c.added :: Committed(tt, c)[i] == Leaf(c.point.net, i)
    requires forall i <- tt :: i != t ==> Committed(tt, c)[i] == tt[i]
    ensures i in Committed(tt, c) && Committed(tt, c)[i].way == "" && Committed(tt, c)[i].children == []
    ensures Labelled(Committed(tt, c)[i], c.point.net, i)
  {
    GroundTask(d.mode, n, t, m, b, i);
    if i >= n.next {
      assert c.added[i - n.next] == i;
    }
  }

  // ----- The commits on a path -----

  /** The tree after the commits of a path. */
  function Replayed<S>(tt: TaskTree, path: seq<Core<S>>): TaskTree
    requires path != []
  {
    if |path| == 1 then tt else Committed(Replayed(tt, path[..|path| - 1]), path[|path| - 1])
  }

  /** A path of the committed search: each core is a child of the one before. */
  ghost predicate Descends<S(!new)>(d: Domain<S>, path: seq<Core<S>>)
    decreases |path|
  {
    path != [] && Valid(path[|path| - 1].point.net) &&
    (|path| > 1 ==> Descends(d, path[..|path| - 1]) && IsChild(d, path[|path| - 2], path[|path| - 1]))
  }

  lemma {:induction false} ReplayedFits<S(!new)>(d: Domain<S>, tt: TaskTree, path: seq<Core<S>>)
    requires Descends(d, path) && Fits(tt, path[0].point.net)
    ensures Fits(Replayed(tt, path), path[|path| - 1].point.net)
    decreases |path|
  {
    hide Fits, Committed, IsChild, Valid;
    if |path| > 1 {
      var rest := path[..|path| - 1];
      assert rest[|rest| - 1] == path[|path| - 2] && rest[0] == path[0];
      ReplayedFits(d, tt, rest);
      CommitFits(d, Replayed(tt, rest), path[|path| - 2], path[|path| - 1]);
    }
  }

  /** Backtracking from the end of a path gives the tree of the shorter path. */
  lemma UndoShortens<S(!new)>(d: Domain<S>, tt: TaskTree, path: seq<Core<S>>)
    requires Descends(d, path) && Fits(tt, path[0].point.net) && |path| > 1
    ensures Undone(Replayed(tt, path), UndoOf(path[|path| - 1])) == Replayed(tt, path[..|path| - 1])
  {
    var rest := path[..|path| - 1];
    ReplayedFits(d, tt, rest);
    CommitFits(d, Replayed(tt, rest), path[|path| - 2], path[|path| - 1]);
    UndoInverts(Replayed(tt, rest), path[|path| - 1]);
  }

  // ----- What the tree says -----

  /** The tree has a decomposition as it was made: the task with the method used and the subtasks it
      gave in their order, each of them with its head, its arguments and the orderings it began with. */
  ghost predicate Records<S>(tt: TaskTree, c: Core<S>) {
    c.prev >= 0 ==>
      && c.prev in tt && tt[c.prev].way == c.way && tt[c.prev].children == c.added
      && forall i <- c.added :: i in tt && Labelled(tt[i], c.point.net, i) && tt[i].outgoing == Outgoing(c.point.net, i)
  }

  /** The decomposed task is gone for good. */
  ghost predicate Gone<S>(n: Net, c: Core<S>) {
    c.prev >= 0 ==> c.prev !in n.tasks && c.prev < n.next
  }

  /** The last commit of a path leaves what the tree says of the earlier ones as it was. */
  lemma RecordsKept<S(!new)>(d: Domain<S>, tt: TaskTree, a: Core<S>, c: Core<S>, e: Core<S>)
    requires Valid(a.point.net) && Fits(tt, a.point.net) && IsChild(d, a, c) && Records(tt, e) && Gone(a.point.net, e)
    ensures Records(Committed(tt, c), e) && Gone(c.point.net, e)
  {
    hide Added, Ground;
    var mv :| Can(d, a.point, mv) && ChildBy(d, a, c, mv);
    var n := a.point.net;
    match mv
    case Act(t, to) =>
      AfterActShape(d, n, t);
    case Decompose(t, mi, b) =>
      var m := d.methods[n.tasks[t].head][mi].body;
      NewIdsFresh(n, m);
      GroundNext(d.mode, n, t, m, b);
      AddedShape(SetWay(tt, t, c.way), c.point.net, t, c.added);
      GoneStays(d, n, t, m, b, e);
  }

  lemma GoneStays<S>(d: Domain<S>, n: Net, t: nat, m: Body, b: Binding, e: Core<S>)
    requires Valid(n) && t in n.tasks && Gone(n, e)
    ensures Gone(Ground(d.mode, n, t, m, b), e)
  {
    hide Ground;
    GroundNext(d.mode, n, t, m, b);
    if e.prev >= 0 && e.prev in Ground(d.mode, n, t, m, b).tasks {
      GroundTask(d.mode, n, t, m, b, e.prev);
    }
  }

  lemma RecordsDecomposed<S>(d: Domain<S>, tt: TaskTree, n: Net, t: nat, m: Body, b: Binding, c: Core<S>)
    requires Valid(n) && t in n.tasks && Fits(tt, n)
    requires c.point.net == Ground(d.mode, n, t, m, b) && c.prev == t && c.added == NewIds(n.next, |m.subs|)
    ensures Records(Committed(tt, c), c) && Gone(c.point.net, c)
    ensures forall i <- tt :: i != t ==> i in Committed(tt, c) && Committed(tt, c)[i] == tt[i]
    ensures Committed(tt, c).Keys == tt.Keys + set i | i in c.added
  {
    hide Added, Ground, Fits, Valid;
    FitsAt(tt, n, t);
    NewIdsFresh(n, m);
    GroundNext(d.mode, n, t, m, b);
    DecomposeTakes(d, tt, n, t, m, b, c);
    AddedShape(SetWay(tt, t, c.way), c.point.net, t, c.added);
    if t in c.point.net.tasks {
      GroundTask(d.mode, n, t, m, b, t);
    }
  }

  lemma FitsAt(tt: TaskTree, n: Net, t: nat)
    requires Fits(tt, n) && t in n.tasks
    ensures t in tt && tt[t].way == "" && tt[t].children == [] && t < n.next && forall i <- tt :: i < n.next
  {
  }

  lemma RecordsLast<S(!new)>(d: Domain<S>, tt: TaskTree, a: Core<S>, c: Core<S>)
    requires Valid(a.point.net) && Fits(tt, a.point.net) && IsChild(d, a, c)
    ensures Records(Committed(tt, c), c) && Gone(c.point.net, c)
    ensures forall i <- tt :: i != c.prev ==> i in Committed(tt, c) && Committed(tt, c)[i] == tt[i]
    ensures Committed(tt, c).Keys == tt.Keys + if c.prev < 0 then {} else set i | i in c.added
  {
    hide Added, Ground, Fits, Records, Gone, SetWay;
    var mv :| Can(d, a.point, mv) && ChildBy(d, a, c, mv);
    var n := a.point.net;
    match mv
    case Act(t, to) =>
      NothingRecorded(tt, c);
    case Decompose(t, mi, b) =>
      RecordsDecomposed(d, tt, n, t, d.methods[n.tasks[t].head][mi].body, b, c);
  }

  lemma NothingRecorded<S>(tt: TaskTree, c: Core<S>)
    requires c.prev < 0
    ensures Records(Committed(tt, c), c) && Gone(c.point.net, c) && Committed(tt, c) == tt
  {
  }

  /** What a path's tree says: every decomposition on it as it was made, and of the tasks it began with,
      those not decomposed as they were; and nothing else is in it. */
  lemma {:induction false} TreeRecords<S(!new)>(d: Domain<S>, tt: TaskTree, path: seq<Core<S>>)
    requires Descends(d, path) && Fits(tt, path[0].point.net)
    ensures forall k :: 1 <= k < |path| ==>
      Records(Replayed(tt, path), path[k]) && Gone(path[|path| - 1].point.net, path[k])
    ensures forall i <- tt :: (forall k :: 1 <= k < |path| ==> path[k].prev != i) ==>
      i in Replayed(tt, path) && Replayed(tt, path)[i] == tt[i]
    ensures forall i <- Replayed(tt, path) :: i in tt || exists k ::
        1 <= k < |path| && path[k].prev >= 0 && i in path[k].added
    decreases |path|
  {
    hide Fits, Committed, IsChild, Valid, Records, Gone;
    if |path| > 1 {
      var rest, a, c := path[..|path| - 1], path[|path| - 2], path[|path| - 1];
      assert rest[|rest| - 1] == a && rest[0] == path[0];
      TreeRecords(d, tt, rest);
      ReplayedFits(d, tt, rest);
      RecordsLast(d, Replayed(tt, rest), a, c);
      forall k | 1 <= k < |path|
        ensures Records(Replayed(tt, path), path[k]) && Gone(c.point.net, path[k])
      {
        if k < |rest| {
          assert rest[k] == path[k];
          RecordsKept(d, Replayed(tt, rest), a, c, path[k]);
        }
      }
      forall i | i in tt && forall k :: 1 <= k < |path| ==> path[k].prev != i
        ensures i in Replayed(tt, path) && Replayed(tt, path)[i] == tt[i]
      {
        assert forall k :: 1 <= k < |rest| ==> rest[k].prev == path[k].prev;
      }
      forall i | i in Replayed(tt, path) && i !in tt
        ensures exists k :: 1 <= k < |path| && path[k].prev >= 0 && i in path[k].added
      {
        if i in Replayed(tt, rest) {
          var k :| 1 <= k < |rest| && rest[k].prev >= 0 && i in rest[k].added;
          assert path[k] == rest[k];
        }
      }
    }
  }

  // ----- The run along a path -----

  lemma {:induction false} RunSnoc<S>(d: Domain<S>, p: Point<S>, run: seq<Move<S>>, mv: Move<S>)
    requires IsRun(d, p, run) && Can(d, End(d, p, run), mv)
    ensures IsRun(d, p, run + [mv]) && End(d, p, run + [mv]) == Next(d, End(d, p, run), mv)
    decreases |run|
  {
    hide Can, Next;
    if run == [] {
      assert [mv][1..] == [];
    } else {
      RunSnoc(d, Next(d, p, run[0]), run[1..], mv);
      assert (run + [mv])[1..] == run[1..] + [mv];
    }
  }

  lemma {:induction false} PlanSnoc<S>(d: Domain<S>, p: Point<S>, run: seq<Move<S>>, mv: Move<S>)
    requires IsRun(d, p, run) && Can(d, End(d, p, run), mv) && IsRun(d, p, run + [mv])
    ensures PlanOf(d, p, run + [mv]) == PlanOf(d, p, run) + StepOf(d, End(d, p, run), mv)
    decreases |run|
  {
    hide Can, Next, StepOf;
    if run == [] {
      assert [mv][1..] == [];
    } else {
      assert (run + [mv])[1..] == run[1..] + [mv];
      PlanSnoc(d, Next(d, p, run[0]), run[1..], mv);
    }
  }

  lemma ExtendRun<S(!new)>(d: Domain<S>, a: Core<S>, b: Core<S>, c: Core<S>, run: seq<Move<S>>)
      returns (more: seq<Move<S>>)
    requires IsRun(d, a.point, run) && End(d, a.point, run) == b.point && b.plan == a.plan + PlanOf(d, a.point, run)
    requires IsChild(d, b, c)
    ensures IsRun(d, a.point, more) && End(d, a.point, more) == c.point && c.plan == a.plan + PlanOf(d, a.point, more)
  {
    var mv :| Can(d, b.point, mv) && ChildBy(d, b, c, mv);
    RunSnoc(d, a.point, run, mv);
    PlanSnoc(d, a.point, run, mv);
    more := run + [mv];
  }

  /** The run from the first point of a path to its last, and the plan it carries out. */
  lemma {:induction false} PathRun<S(!new)>(d: Domain<S>, path: seq<Core<S>>) returns (run: seq<Move<S>>)
    requires Descends(d, path)
    ensures IsRun(d, path[0].point, run) && End(d, path[0].point, run) == path[|path| - 1].point
    ensures path[|path| - 1].plan == path[0].plan + PlanOf(d, path[0].point, run)
    decreases |path|
  {
    if |path| == 1 {
      run := [];
    } else {
      var before := PathRun(d, path[..|path| - 1]);
      run := ExtendRun(d, path[0], path[|path| - 2], path[|path| - 1], before);
    }
  }
}
