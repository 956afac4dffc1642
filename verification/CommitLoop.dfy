/** The commit loop of lib/cpphop/cppMCTShop.h, `seek_planMCTS`: search, commit to a child or
    backtrack, until the network is empty. */
module CommitLoop {
  import opened Basics
  import opened Networks
  import opened Progression
  import opened Exchange
  import opened Completeness
  import opened Rollout
  import opened SearchTree
  import opened TreeSearch
  import opened TaskTrees

  /** How the loop ends: a plan at a node, or one of the errors it raises. `Raised` is an error
      raised by a rollout or an expansion. The report that nothing applies is the same whether it is
      `proved` or not. */
  datatype Ending =
    Found(node: nat) | BudgetExhausted | NoneApplicable(proved: bool) | Stuck | TooManyDecisions | Raised

  // ----- The committed nodes -----

  /** A node `y` added under `v`. */
  function AddNode<S>(t: Nodes<S>, v: nat, y: nat, c: Core<S>): Nodes<S>
    requires v in t
  {
    t[y := NewNode(c, v)][v := t[v].(successors := t[v].successors + [y])]
  }

  /** Node `v` removed, and dropped from the successors of `u`. */
  function DropNode<S>(t: Nodes<S>, u: nat, v: nat): Nodes<S>
    requires u in t
  {
    t[u := t[u].(successors := EraseFirst(t[u].successors, v))] - {v}
  }

  function EraseFirst(s: seq<nat>, x: nat): seq<nat> {
    if s == [] then [] else if s[0] == x then s[1..] else [s[0]] + EraseFirst(s[1..], x)
  }

  /** The committed nodes, from the root down: `ids[i]` has core `path[i]`. */
  ghost function Chain<S>(ids: seq<nat>, path: seq<Core<S>>): (t: Nodes<S>)
    requires |ids| == |path| > 0
    ensures ids[|ids| - 1] in t
  {
    if |ids| == 1 then map[ids[0] := NewNode(path[0], -1)]
    else
      var k := |ids| - 1;
      AddNode(Chain(ids[..k], path[..k]), ids[k - 1], ids[k], path[k])
  }

  lemma {:induction false} ChainFacts<S>(ids: seq<nat>, path: seq<Core<S>>)
    requires |ids| == |path| > 0 && Ascending(ids)
    ensures var t, k := Chain(ids, path), |ids| - 1;
      && (forall x <- t :: x in ids)
      && t[ids[k]] == NewNode(path[k], if k == 0 then -1 else ids[k - 1])
  {
    if |ids| > 1 {
      ChainFacts(ids[..|ids| - 1], path[..|ids| - 1]);
    }
  }

  lemma DropAdded<S>(t: Nodes<S>, v: nat, y: nat, c: Core<S>)
    requires v in t && y !in t && t[v].successors == []
    ensures v in AddNode(t, v, y, c) && DropNode(AddNode(t, v, y, c), v, y) == t
  {
    var b := AddNode(t, v, y, c);
    assert EraseFirst(b[v].successors, y) == [];
  }

  lemma ChainDrops<S>(ids: seq<nat>, path: seq<Core<S>>)
    requires |ids| == |path| > 1 && Ascending(ids)
    ensures var t, k := Chain(ids, path), |ids| - 1;
      && t[ids[k]].pred == ids[k - 1] && ids[k - 1] in t && DropNode(t, ids[k - 1], ids[k]) ==
          Chain(ids[..k], path[..k])
  {
    var k := |ids| - 1;
    ChainFacts(ids, path);
    ChainFacts(ids[..k], path[..k]);
    assert ids[k] !in ids[..k];
    DropAdded(Chain(ids[..k], path[..k]), ids[k - 1], ids[k], path[k]);
  }

  /** The records of the commits on a path, oldest first. */
  ghost function Undos<S>(path: seq<Core<S>>): seq<Undo> {
    if |path| <= 1 then [] else Undos(path[..|path| - 1]) + [UndoOf(path[|path| - 1])]
  }

  /** The planner's state describes exactly the commits on a path. */
  ghost predicate Describes<S(!new)>(d: Domain<S>, start: TaskTree, ids: seq<nat>, path: seq<Core<S>>,
                                    t: Nodes<S>, tasktree: TaskTree, undoStack: seq<Undo>) {
    && |ids| == |path| > 0 && Ascending(ids) && t == Chain(ids, path)
    && Descends(d, path) && Fits(start, path[0].point.net)
    && tasktree == Replayed(start, path) && undoStack == Undos(path)
  }

  lemma CommitDescribes<S(!new)>(d: Domain<S>, start: TaskTree, ids: seq<nat>, path: seq<Core<S>>,
                                 t: Nodes<S>, tt: TaskTree, us: seq<Undo>, y: nat, c: Core<S>)
    requires Describes(d, start, ids, path, t, tt, us) && (forall i <- ids :: i < y)
    requires IsChild(d, path[|path| - 1], c) && Valid(c.point.net)
    ensures ids[|ids| - 1] in t
    ensures Describes(d, start, ids + [y], path + [c], AddNode(t, ids[|ids| - 1], y, c), Committed(tt, c),
            us + [UndoOf(c)])
  {
    PathCommitted(d, start, path, c);
    ChainGrows(ids, path, y, c);
    assert forall i :: 0 <= i < |ids| ==> ids[i] in ids;
    assert (path + [c])[0] == path[0];
  }

  lemma ChainGrows<S>(ids: seq<nat>, path: seq<Core<S>>, y: nat, c: Core<S>)
    requires |ids| == |path| > 0
    ensures Chain(ids + [y], path + [c]) == AddNode(Chain(ids, path), ids[|ids| - 1], y, c)
  {
    assert (ids + [y])[..|ids|] == ids && (path + [c])[..|path|] == path;
  }

  lemma PathCommitted<S(!new)>(d: Domain<S>, start: TaskTree, path: seq<Core<S>>, c: Core<S>)
    requires Descends(d, path) && IsChild(d, path[|path| - 1], c) && Valid(c.point.net)
    ensures Descends(d, path + [c]) && Replayed(start, path + [c]) == Committed(Replayed(start, path), c)
    ensures Undos(path + [c]) == Undos(path) + [UndoOf(c)]
  {
    assert (path + [c])[..|path|] == path;
  }

  lemma BacktrackDescribes<S(!new)>(d: Domain<S>, start: TaskTree, ids: seq<nat>, path: seq<Core<S>>,
                                    t: Nodes<S>, tt: TaskTree, us: seq<Undo>)
    requires Describes(d, start, ids, path, t, tt, us) && |path| > 1
    ensures var k := |ids| - 1;
      && ids[k] in t && t[ids[k]].pred == ids[k - 1] && ids[k - 1] in t && |us| > 0
      && Describes(d, start, ids[..k], path[..k], DropNode(t, ids[k - 1], ids[k]), Undone(tt, us[|us| - 1]),
          us[..|us| - 1])
  {
    ChainDrops(ids, path);
    UndoShortens(d, start, path);
  }

  // ----- One commit, one backtrack -----

  /** Records a decision in the task tree: the method, and the new subtasks one by one. */
  method CommitTask<S>(tasktree: TaskTree, c: Core<S>) returns (tt: TaskTree, undo: Undo)
    ensures tt == Committed(tasktree, c) && undo == UndoOf(c)
  {
    tt := tasktree;
    var added: seq<nat> := [];
    if c.prev >= 0 {
      tt := SetWay(tt, c.prev, c.way);
      for i := 0 to |c.added|
        invariant added == c.added[..i]
        invariant tt == Added(SetWay(tasktree, c.prev, c.way), c.point.net, c.prev, added)
      {
        var id := c.added[i];
        tt := AddChild(tt[id := Leaf(c.point.net, id)], c.prev, id);
        assert (added + [id])[..i] == added;
        added := added + [id];
      }
      assert c.added[..|c.added|] == c.added;
    }
    undo := Undo(c.prev, added);
  }

  /** The choices a caller of the planner makes; `clock` stands for the time a decision is given
      when iterations are not counted. */
  datatype Options<!S> =
    Options(uct: (TreeNode<S>, TreeNode<S>) -> real, rollouts: nat, maxDepth: int, maxDecisions: int,
            maxIterations: int, restrictRollouts: int, algorithm: int, earlyCommit: bool, lookahead: bool)

  ghost predicate Trusted<S(!new)>(d: Domain<S>, o: Options<S>) {
    StableBindings(d) && (o.lookahead ==> LoaderShapes(d)) && o.rollouts > 0
  }

  method Clock() returns (iterations: nat)
  {
    iterations :| true;
  }

  /** What a decision at `c` knows: a sound search tree, of which it takes a child not refuted of the
      best mean. */
  ghost predicate Searched<S(!new)>(d: Domain<S>, c: Core<S>, t: Nodes<S>, choice: Option<Core<S>>) {
    && Good(Meaning(d), t) && t[0].core == c
    && match choice
       case Some(k) => exists x :: LiveKid(t, 0, x) && t[x].core == k && forall w :: LiveKid(t, 0, w) ==>
           Mean(t[w]) <= Mean(t[x])
       case None => forall x :: !LiveKid(t, 0, x)
  }

  /** A decision's iterations are used up, unless the root is refuted or, committing early, only one of
      its children is left. */
  ghost predicate Spent<S>(o: Options<S>, t: Nodes<S>) {
    0 in t && (o.maxIterations > 0 ==>
      t[0].sims >= o.maxIterations || t[0].deadend || (o.earlyCommit && exists c :: Settled(t, c)))
  }

  ghost predicate Decision<S(!new)>(d: Domain<S>, o: Options<S>, c: Core<S>, t: Nodes<S>, choice: Option<Core<S>>) {
    Searched(d, c, t, choice) && Spent(o, t)
  }

  /** The next decision from the node with core `c`: the core of the child to commit to, or none;
      whether anything at all was tried, and whether that proves that there is nothing to find. */
  method Choose<S(!new)>(d: Domain<S>, o: Options<S>, c: Core<S>)
    returns (choice: Option<Core<S>>, tried: bool, proved: bool, thrown: bool, ghost t: Nodes<S>)
    requires Trusted(d, o) && Valid(c.point.net)
    ensures !thrown && choice.Some? ==> IsChild(d, c, choice.value) && Valid(choice.value.point.net)
    ensures !thrown ==> Decision(d, o, c, t, choice) && Searched(d, c, t, choice)
    ensures thrown ==> Faulty(d, c.point)
    ensures !thrown ==> (tried <==> t[0].successors != [] || t[0].deadend) && (proved <==> Proves(t[0]))
    ensures !thrown && choice.None? && proved ==> !Solvable(d, c.point)
  {
    hide Good, Later, Visited, Means, Meaning, Searched, IsChild, Valid, Faulty, Settled;
    var m := new Search(d, o.uct, o.rollouts, o.maxDepth, o.restrictRollouts, o.algorithm, o.lookahead, c);
    var budget := if o.maxIterations > 0 then o.maxIterations else 0;
    if o.maxIterations <= 0 {
      budget := Clock();
    }
    MeaningMeans(d);
    var pick;
    pick, thrown := m.Decide(budget, o.earlyCommit);
    t := m.t;
    if thrown {
      return None, false, false, true, t;
    }
    Decided(d, c, m.t, pick);
    tried := m.t[0].successors != [] || m.t[0].deadend;
    proved := Proves(m.t[0]);
    choice := Picked(m.t, pick);
  }

  function Picked<S>(t: Nodes<S>, pick: Option<nat>): Option<Core<S>>
    requires pick.Some? ==> pick.value in t
  {
    if pick.Some? then Some(t[pick.value].core) else None
  }

  lemma MeaningMeans<S(!new)>(d: Domain<S>)
    ensures Means(d, Meaning(d))
  {
  }

  lemma Decided<S(!new)>(d: Domain<S>, c: Core<S>, t: Nodes<S>, pick: Option<nat>)
    requires Good(Meaning(d), t) && Later(map[0 := NewNode(c, -1)], t)
    requires pick.Some? ==> LiveKid(t, 0, pick.value) && forall w :: LiveKid(t, 0, w) ==>
      Mean(t[w]) <= Mean(t[pick.value])
    requires pick.None? ==> forall w :: !LiveKid(t, 0, w)
    ensures 0 in t && (pick.Some? ==> pick.value in t) && Searched(d, c, t, Picked(t, pick))
    ensures pick.Some? ==> IsChild(d, c, t[pick.value].core) && Valid(t[pick.value].core.point.net)
    ensures pick.None? && Proves(t[0]) ==> !Solvable(d, c.point)
  {
    hide Honest, NodeShape, Means, Meaning, IsChild, Valid, Solvable;
    MeaningMeans(d);
    var first: Nodes<S> := map[0 := NewNode(c, -1)];
    assert 0 in first;
    if pick.Some? {
      ChosenIsChild(d, Meaning(d), t, pick.value);
    } else if Proves(t[0]) {
      NoneLeftIsProof(d, Meaning(d), t);
    }
  }

  lemma ChosenIsChild<S(!new)>(d: Domain<S>, th: Theory<S>, t: Nodes<S>, x: nat)
    requires Means(d, th) && Good(th, t) && LiveKid(t, 0, x)
    ensures IsChild(d, t[0].core, t[x].core) && Valid(t[x].core.point.net)
  {
    assert NodeHonest(th, t, 0) && NodeHonest(th, t, x);
    assert IsKid(t[0], x);
    assert th.child(t[0].core, t[x].core);
  }

  /** Where the planner stands. `path` and `ids` are the committed nodes, kept for the proof; the
      rest is what the loop works on. */
  datatype Stand<!S> = Stand(t: Nodes<S>, tasktree: TaskTree, undoStack: seq<Undo>, v: nat, nextNodeId: nat)

  ghost predicate At<S(!new)>(d: Domain<S>, root: Core<S>, start: TaskTree, ids: seq<nat>, path: seq<Core<S>>,
          s: Stand<S>) {
    && Describes(d, start, ids, path, s.t, s.tasktree, s.undoStack) && path[0] == root
    && s.v == ids[|ids| - 1] && forall i <- ids :: i < s.nextNodeId
  }

  lemma AtNode<S(!new)>(d: Domain<S>, root: Core<S>, start: TaskTree, ids: seq<nat>, path: seq<Core<S>>, s: Stand<S>)
    requires At(d, root, start, ids, path, s)
    ensures |ids| == |path| > 0 && s.v in s.t && s.t[s.v].core == path[|path| - 1] && Valid(s.t[s.v].core.point.net)
    ensures s.t[s.v].pred == if |ids| == 1 then -1 else ids[|ids| - 2]
  {
    ChainFacts(ids, path);
  }

  /** The latest commit taken back. */
  function TakenBack<S>(s: Stand<S>): Stand<S>
    requires s.v in s.t && s.t[s.v].pred >= 0 && s.t[s.v].pred in s.t && s.undoStack != []
  {
    var u: nat := s.t[s.v].pred;
    var k := |s.undoStack| - 1;
    Stand(DropNode(s.t, u, s.v), Undone(s.tasktree, s.undoStack[k]), s.undoStack[..k], u, s.nextNodeId)
  }

  lemma TakenBackAt<S(!new)>(d: Domain<S>, root: Core<S>, start: TaskTree, ids: seq<nat>, path: seq<Core<S>>,
          s: Stand<S>)
    requires At(d, root, start, ids, path, s) && |path| > 1
    ensures s.v in s.t && s.t[s.v].pred >= 0 && s.t[s.v].pred in s.t && s.undoStack != []
    ensures At(d, root, start, ids[..|ids| - 1], path[..|path| - 1], TakenBack(s))
  {
    hide Chain, Replayed, Undos, Descends, Fits, Undone, DropNode;
    BacktrackDescribes(d, start, ids, path, s.t, s.tasktree, s.undoStack);
    var k := |ids| - 1;
    assert s.t[s.v].pred == ids[k - 1] == ids[..k][k - 1];
    forall i | i in ids[..k]
      ensures i < s.nextNodeId
    {
      assert i in ids;
    }
  }

  /** One more commit. */
  function CommittedTo<S>(s: Stand<S>, c: Core<S>): Stand<S>
    requires s.v in s.t
  {
    var y := s.nextNodeId;
    Stand(AddNode(s.t, s.v, y, c), Committed(s.tasktree, c), s.undoStack + [UndoOf(c)], y, y + 1)
  }

  method Commit<S(!new)>(d: Domain<S>, root: Core<S>, start: TaskTree, ghost ids: seq<nat>, ghost path: seq<Core<S>>,
          s: Stand<S>, c: Core<S>)
    returns (s': Stand<S>)
    requires At(d, root, start, ids, path, s) && IsChild(d, path[|path| - 1], c) && Valid(c.point.net)
    ensures At(d, root, start, ids + [s.nextNodeId], path + [c], s')
    ensures s.v in s.t && s' == CommittedTo(s, c)
  {
    hide Chain, Replayed, Undos, Descends, Fits, Committed, IsChild, Valid;
    AtNode(d, root, start, ids, path, s);
    var y := s.nextNodeId;
    CommitDescribes(d, start, ids, path, s.t, s.tasktree, s.undoStack, y, c);
    var tasktree, undo := CommitTask(s.tasktree, c);
    s' := Stand(AddNode(s.t, s.v, y, c), tasktree, s.undoStack + [undo], y, y + 1);
  }

  /** A step of the loop: back, when the decision finds no child; or on, to the child it chooses. */
  ghost predicate Back<S(!new)>(d: Domain<S>, o: Options<S>, a: Stand<S>, b: Stand<S>) {
    && a.v in a.t && a.t[a.v].pred >= 0 && a.t[a.v].pred in a.t && a.undoStack != [] && b == TakenBack(a)
    && exists t :: Decision(d, o, a.t[a.v].core, t, None)
  }

  ghost predicate On<S(!new)>(d: Domain<S>, o: Options<S>, a: Stand<S>, b: Stand<S>) {
    a.v in a.t && exists t, k :: Decision(d, o, a.t[a.v].core, t, Some(k)) && b == CommittedTo(a, k)
  }

  function Beginning<S>(root: Core<S>, start: TaskTree): Stand<S> {
    Stand(map[0 := NewNode(root, -1)], start, [], 0, 1)
  }

  /** What the loop did, from the beginning to `s`. */
  ghost predicate Story<S(!new)>(d: Domain<S>, o: Options<S>, root: Core<S>, start: TaskTree, hist: seq<Stand<S>>,
          s: Stand<S>) {
    && hist != [] && hist[0] == Beginning(root, start) && hist[|hist| - 1] == s
    && forall i :: 0 <= i < |hist| - 1 ==> Back(d, o, hist[i], hist[i + 1]) || On(d, o, hist[i], hist[i + 1])
  }

  /** The last `n` steps went back. */
  ghost predicate WentBack<S(!new)>(d: Domain<S>, o: Options<S>, hist: seq<Stand<S>>, n: nat) {
    n < |hist| && forall i :: |hist| - 1 - n <= i < |hist| - 1 ==> Back(d, o, hist[i], hist[i + 1])
  }

  lemma StoryBack<S(!new)>(d: Domain<S>, o: Options<S>, root: Core<S>, start: TaskTree, hist: seq<Stand<S>>,
          s: Stand<S>, s': Stand<S>, n: nat)
    requires Story(d, o, root, start, hist, s) && WentBack(d, o, hist, n) && Back(d, o, s, s')
    ensures Story(d, o, root, start, hist + [s'], s') && WentBack(d, o, hist + [s'], n + 1)
  {
    hide Back, On;
  }

  lemma StoryOn<S(!new)>(d: Domain<S>, o: Options<S>, root: Core<S>, start: TaskTree, hist: seq<Stand<S>>,
          s: Stand<S>, s': Stand<S>)
    requires Story(d, o, root, start, hist, s) && On(d, o, s, s')
    ensures Story(d, o, root, start, hist + [s'], s') && WentBack(d, o, hist + [s'], 0)
  {
    hide Back, On;
  }

  lemma {:induction false} FaultOnPath<S(!new)>(d: Domain<S>, path: seq<Core<S>>)
    requires Descends(d, path) && Faulty(d, path[|path| - 1].point)
    ensures Faulty(d, path[0].point)
    decreases |path|
  {
    hide Faulty, IsChild, Valid;
    if |path| > 1 {
      var rest := path[..|path| - 1];
      FaultUp(d, path[|path| - 2], path[|path| - 1]);
      assert rest[|rest| - 1] == path[|path| - 2];
      FaultOnPath(d, rest);
    }
  }

  /** Searches and commits until the network is empty. A plan found is the real actions, in order, of
      a run from the first network to the empty one, ending in the state reported; and whatever
      commits and backtracks came before, the task tree is that of the commits still standing. `last` is
      the search tree of the last decision, and `hist` where the loop stood, step by step. */
  method SeekPlan<S(!new)>(d: Domain<S>, o: Options<S>, root: Core<S>, start: TaskTree)
    returns (ending: Ending, s: Stand<S>, ghost last: Nodes<S>, ghost hist: seq<Stand<S>>)
    requires Trusted(d, o) && Valid(root.point.net) && Fits(start, root.point.net) && root.plan == []
    ensures Standing(d, root, start, s)
    ensures Story(d, o, root, start, hist, s)
    ensures ending.Found? ==> ending.node == s.v && s.v in s.t && Planned(d, root.point, s.t[s.v].core)
    ensures ending.NoneApplicable? || ending.BudgetExhausted? ==> s.v in s.t && s.t[s.v].core == root
    ensures ending.NoneApplicable? || ending.BudgetExhausted? ==> Decision(d, o, root, last, None) && 0 in last
    ensures ending.NoneApplicable? && ending.proved ==> !Solvable(d, root.point)
    ensures ending.NoneApplicable? ==> (ending.proved <==> Proves(last[0])) && Tried(last[0])
    ensures ending.BudgetExhausted? ==> last[0].successors == [] && !last[0].deadend
    ensures ending.NoneApplicable? ==> last[0].successors != [] || last[0].deadend
    ensures ending.Stuck? ==> WentBack(d, o, hist, 10)
    ensures ending.TooManyDecisions? ==> s.nextNodeId == 1 + (if o.maxDecisions > 0 then o.maxDecisions else 0)
    ensures ending.TooManyDecisions? ==> s.v in s.t && s.t[s.v].core.point.net.tasks != map[]
    ensures ending.Raised? ==> Faulty(d, root.point)
  {
    hide At, Planned, Fits, Valid, TakenBack, CommittedTo, Searched, Spent, Decision, Story, WentBack, Back, On,
         Faulty, Solvable, IsChild;
    var stuck, decisions := 10, 0;
    s := Beginning(root, start);
    last, hist := s.t, [s];
    ghost var ids, path := [0], [root];
    StandStarts(d, root, start);
    StoryStarts(d, o, root, start);
    AtNode(d, root, start, ids, path, s);
    while s.t[s.v].core.point.net.tasks != map[]
      invariant At(d, root, start, ids, path, s) && s.v in s.t
      invariant 0 < stuck <= 10 && 0 <= decisions && (decisions == 0 || decisions <= o.maxDecisions)
      invariant s.nextNodeId == 1 + decisions
      invariant Story(d, o, root, start, hist, s) && WentBack(d, o, hist, 10 - stuck)
      decreases (if o.maxDecisions > 0 then o.maxDecisions else 0) - decisions, stuck
    {
      AtNode(d, root, start, ids, path, s);
      var choice, tried, proved, thrown;
      choice, tried, proved, thrown, last := Choose(d, o, s.t[s.v].core);
      if thrown {
        PathFault(d, root, start, ids, path, s);
        ending := Raised;
        return;
      }
      if choice.None? {
        if s.t[s.v].pred == -1 {
          StandAtRoot(d, root, start, ids, path, s);
          ending := if tried then NoneApplicable(proved) else BudgetExhausted;
          DecisionRoot(d, o, root, last);
          return;
        }
        TakenBackAt(d, root, start, ids, path, s);
        StepsBack(d, o, s, last);
        StoryBack(d, o, root, start, hist, s, TakenBack(s), 10 - stuck);
        s := TakenBack(s);
        hist := hist + [s];
        ids, path := ids[..|ids| - 1], path[..|path| - 1];
        stuck := stuck - 1;
        if stuck <= 0 {
          ending := Stuck;
          return;
        }
      } else {
        stuck := 10;
        decisions := decisions + 1;
        if decisions > o.maxDecisions {
          ending := TooManyDecisions;
          return;
        }
        ghost var y := s.nextNodeId;
        StepsOn(d, o, s, last, choice.value);
        StoryOn(d, o, root, start, hist, s, CommittedTo(s, choice.value));
        s := Commit(d, root, start, ids, path, s, choice.value);
        hist := hist + [s];
        ids, path := ids + [y], path + [choice.value];
      }
      AtNode(d, root, start, ids, path, s);
    }
    StandAtEnd(d, root, start, ids, path, s);
    ending := Found(s.v);
  }

  /** Has a decision tried anything? */
  predicate Tried<S>(v: TreeNode<S>) {
    v.successors != [] || v.deadend
  }

  lemma StoryStarts<S(!new)>(d: Domain<S>, o: Options<S>, root: Core<S>, start: TaskTree)
    ensures Story(d, o, root, start, [Beginning(root, start)], Beginning(root, start))
    ensures WentBack(d, o, [Beginning(root, start)], 0)
  {
  }

  lemma DecisionRoot<S(!new)>(d: Domain<S>, o: Options<S>, c: Core<S>, t: Nodes<S>)
    requires Decision(d, o, c, t, None)
    ensures 0 in t
  {
  }

  lemma StepsBack<S(!new)>(d: Domain<S>, o: Options<S>, s: Stand<S>, t: Nodes<S>)
    requires s.v in s.t && s.t[s.v].pred >= 0 && s.t[s.v].pred in s.t && s.undoStack != []
    requires Decision(d, o, s.t[s.v].core, t, None)
    ensures Back(d, o, s, TakenBack(s)) && TakenBack(s).nextNodeId == s.nextNodeId
  {
  }

  lemma StepsOn<S(!new)>(d: Domain<S>, o: Options<S>, s: Stand<S>, t: Nodes<S>, k: Core<S>)
    requires s.v in s.t && Decision(d, o, s.t[s.v].core, t, Some(k))
    ensures On(d, o, s, CommittedTo(s, k)) && CommittedTo(s, k).nextNodeId == s.nextNodeId + 1
  {
  }

  lemma PathFault<S(!new)>(d: Domain<S>, root: Core<S>, start: TaskTree, ids: seq<nat>, path: seq<Core<S>>, s: Stand<S>)
    requires At(d, root, start, ids, path, s) && s.v in s.t && Faulty(d, s.t[s.v].core.point)
    ensures Faulty(d, root.point)
  {
    hide Faulty, Chain, Replayed, Undos;
    AtNode(d, root, start, ids, path, s);
    FaultOnPath(d, path);
  }

  /** The state describes exactly the commits on some path from the root. */
  ghost predicate Standing<S(!new)>(d: Domain<S>, root: Core<S>, start: TaskTree, s: Stand<S>) {
    exists ids, path :: At(d, root, start, ids, path, s)
  }

  lemma StandStarts<S(!new)>(d: Domain<S>, root: Core<S>, start: TaskTree)
    requires Valid(root.point.net) && Fits(start, root.point.net)
    ensures At(d, root, start, [0], [root], Beginning(root, start))
  {
  }

  lemma StandAtRoot<S(!new)>(d: Domain<S>, root: Core<S>, start: TaskTree, ids: seq<nat>, path: seq<Core<S>>,
          s: Stand<S>)
    requires At(d, root, start, ids, path, s) && s.v in s.t && s.t[s.v].pred == -1
    ensures s.t[s.v].core == root
  {
    AtNode(d, root, start, ids, path, s);
  }

  lemma StandAtEnd<S(!new)>(d: Domain<S>, root: Core<S>, start: TaskTree, ids: seq<nat>, path: seq<Core<S>>,
          s: Stand<S>)
    requires At(d, root, start, ids, path, s) && root.plan == []
    ensures s.v in s.t && (s.t[s.v].core.point.net.tasks == map[] ==> Planned(d, root.point, s.t[s.v].core))
  {
    hide Chain, Replayed, Undos;
    AtNode(d, root, start, ids, path, s);
    var run := PathRun(d, path);
    assert s.t[s.v].core.plan == PlanOf(d, root.point, run);
  }

  /** What a plan is: the real actions, in order, of some run from `p` that carries every task out and
      ends where the core says. */
  ghost predicate Planned<S(!new)>(d: Domain<S>, p: Point<S>, c: Core<S>) {
    exists run :: Solves(d, p, run) && c.point == End(d, p, run) && c.plan == PlanOf(d, p, run)
  }
}
