/** The report that no decomposition applies (lib/cpphop/cppMCTShop.h, lines 792-819), made while a child of
    the root is still unexplored: a domain, and the search tree two iterations leave, where it is
    wrong. */
module Reports {
  import opened Basics
  import opened Networks
  import opened Progression
  import opened Completeness
  import opened Rollout
  import opened SearchTree
  import opened TreeSearch

  // ----- A domain -----

  const STUCK: Action<int> := Action(0, false, (s: int, a: Args) => false, (s: int, a: Args) => [])

  const FAILS: Method<int> := Method("fails", 0, Body([Sub("stuck", "stuck", [])], map[]), (s: int, a: Args) => [[]])

  const FITS: Method<int> := Method("fits", 0, Body([], map[]), (s: int, a: Args) => [[]])

  /** One task, with a method whose only subtask cannot be carried out and one without subtasks. */
  const DOMAIN: Domain<int> := Domain(map["stuck" := STUCK], map["go" := [FAILS, FITS]], Compiled,
      (s: int, p: seq<Step>) => 0.0)

  const ROOT: Core<int> := Core(Point(0, Net(map[0 := Task("go", [], {}, None)], {}, 1, [], 0)), [], -1, [], "")

  const FAILED: Core<int> := Core(Point(0, Net(map[1 := Task("stuck", [], {}, None)], {}, 2, [], 0)), [], 0, [1],
      "fails")

  const FITTED: Core<int> := Core(Point(0, Net(map[], {}, 1, [], 0)), [], 0, [], "fits")

  lemma FreeGo()
    ensures Compound(DOMAIN, ROOT.point.net, 0) && forall t :: Free(ROOT.point.net, t) ==> t == 0
    ensures Valid(ROOT.point.net) && Valid(FAILED.point.net) && Valid(FITTED.point.net)
  {
    assert ROOT.point.net.tasks.Keys == {0};
  }

  lemma FittedIsNext()
    ensures Can(DOMAIN, ROOT.point, Decompose(0, 1, []))
    ensures Next(DOMAIN, ROOT.point, Decompose(0, 1, [])) == FITTED.point
  {
    FreeGo();
    var n := ROOT.point.net;
    assert NewTasks(Compiled, n, 0, FITS.body, [], 0) == map[];
    assert RemoveTask(n, 0).tasks == map[];
    assert RemoveTask(n, 0).edges == {} && NewEdges(n, 0, FITS.body) == {};
    assert !Records(Compiled, FITS.body);
  }

  lemma FailedIsNext()
    ensures Can(DOMAIN, ROOT.point, Decompose(0, 0, []))
    ensures Next(DOMAIN, ROOT.point, Decompose(0, 0, [])) == FAILED.point
  {
    FreeGo();
    var n := ROOT.point.net;
    assert RemoveTask(n, 0).tasks == map[];
    assert RemoveTask(n, 0).edges == {} && NewEdges(n, 0, FAILS.body) == {};
    var added := NewTasks(Compiled, n, 0, FAILS.body, [], 1);
    assert added.Keys == {1} && added[1] == SubTask(Compiled, n, 0, FAILS.body, [], 1);
    assert SubTask(Compiled, n, 0, FAILS.body, [], 1).args == [];
    assert added == map[1 := Task("stuck", [], {}, None)];
    assert !Records(Compiled, FAILS.body);
  }

  lemma Children()
    ensures IsChild(DOMAIN, ROOT, FITTED) && IsChild(DOMAIN, ROOT, FAILED)
  {
    FittedIsNext();
    FailedIsNext();
    assert NewIds(1, 1) == [1] && NewIds(1, 0) == [];
    assert ChildBy(DOMAIN, ROOT, FITTED, Decompose(0, 1, []));
    assert ChildBy(DOMAIN, ROOT, FAILED, Decompose(0, 0, []));
  }

  /** There is a plan from the root, the empty one, and none from the child that fails. */
  lemma Verdicts()
    ensures Witness(DOMAIN, ROOT.point, [Decompose(0, 1, [])], 1, [], 0.0)
    ensures Solvable(DOMAIN, ROOT.point) && Solvable(DOMAIN, FITTED.point) && !Solvable(DOMAIN, FAILED.point)
  {
    FittedIsNext();
    var run: seq<Move<int>> := [Decompose(0, 1, [])];
    assert run[1..] == [];
    assert Solves(DOMAIN, FITTED.point, []);
    SolvesCons(DOMAIN, ROOT.point, Decompose(0, 1, []), []);
    assert 1 in FAILED.point.net.tasks;
    SolvableByMove(DOMAIN, FAILED.point);
    assert forall mv :: Can(DOMAIN, FAILED.point, mv) ==> mv.t == 1;
  }

  // ----- Two iterations -----

  function First<S>(root: Core<S>): Nodes<S> {
    map[0 := NewNode(root, -1)]
  }

  /** The root's rollout succeeds. */
  function Second<S>(root: Core<S>): Nodes<S> {
    map[0 := NewNode(root, -1).(sims := 1)]
  }

  /** The root gets its children, and the one that fails is taken. */
  function Third<S>(root: Core<S>, x: Core<S>, y: Core<S>): Nodes<S> {
    map[0 := NewNode(root, -1).(sims := 1, successors := [2], unexplored := [1]), 1 := NewNode(x, 0),
        2 := NewNode(y, 0)]
  }

  /** Its rollout refutes it. */
  function Final<S>(root: Core<S>, x: Core<S>, y: Core<S>): Nodes<S> {
    map[0 := NewNode(root, -1).(score := -1.0, sims := 2, successors := [2], unexplored := [1]), 1 := NewNode(x, 0),
        2 := NewNode(y, 0).(score := -1.0, sims := 1, deadend := true)]
  }

  function WithOne<S>(root: Core<S>, x: Core<S>): Nodes<S> {
    map[0 := NewNode(root, -1).(sims := 1, unexplored := [1]), 1 := NewNode(x, 0)]
  }

  function WithBoth<S>(root: Core<S>, x: Core<S>, y: Core<S>): Nodes<S> {
    map[0 := NewNode(root, -1).(sims := 1, unexplored := [1, 2]), 1 := NewNode(x, 0), 2 := NewNode(y, 0)]
  }

  lemma OneAdded<S>(root: Core<S>, x: Core<S>)
    ensures AddAll(Second(root), 0, [x]) == WithOne(root, x)
  {
    var t := Second(root);
    assert t.Keys == {0} && |t| == |t.Keys| == 1;
    assert [x][..0] == [] && AddAll(t, 0, []) == t;
    var one := AddKid(t, 0, x);
    assert one.Keys == {0, 1} && one[0] == WithOne(root, x)[0] && one[1] == WithOne(root, x)[1];
    assert one == WithOne(root, x);
    assert AddAll(t, 0, [x]) == AddKid(AddAll(t, 0, [x][..0]), 0, x);
  }

  lemma BothAdded<S>(root: Core<S>, x: Core<S>, y: Core<S>)
    ensures AddAll(Second(root), 0, [x, y]) == WithBoth(root, x, y)
  {
    OneAdded(root, x);
    var one := WithOne(root, x);
    assert one.Keys == {0, 1} && |one| == |one.Keys| == 2;
    var two := AddKid(one, 0, y);
    assert two.Keys == {0, 1, 2} && two[0] == WithBoth(root, x, y)[0] && two[1] == WithBoth(root, x, y)[1];
    assert two == WithBoth(root, x, y);
    assert [x, y][..1] == [x];
    assert AddAll(Second(root), 0, [x, y]) == AddKid(AddAll(Second(root), 0, [x, y][..1]), 0, y);
  }

  lemma Taken<S>(root: Core<S>, x: Core<S>, y: Core<S>)
    ensures Attached(Second(root), Third(root, x, y), 0, [x, y], [1, 2], 2)
  {
    BothAdded(root, x, y);
    var two := AddAll(Second(root), 0, [x, y]);
    assert WithUnexplored(two, 0, [1, 2]) == two;
    var popped := PopChild(two, 0);
    assert [1, 2][..1] == [1];
    assert popped[0] == Third(root, x, y)[0] && popped.Keys == Third(root, x, y).Keys;
  }

  lemma CreditedTwice<S>(root: Core<S>, x: Core<S>, y: Core<S>)
    ensures Concluded(First(root), Second(root), 0, Solved(0.0), 1)
    ensures Concluded(Third(root, x, y), Final(root, x, y), 2, Refuted, 1)
  {
    assert Line(First(root), -1) == {} && Line(First(root), 0) == {0};
    var t := MarkDead(Third(root, x, y), 2);
    assert Line(t, -1) == {} && Line(t, 0) == {0} && Line(t, 2) == {0, 2};
  }

  lemma FinalShape<S>(root: Core<S>, x: Core<S>, y: Core<S>)
    ensures Shape(Final(root, x, y)) && forall c :: !LiveKid(Final(root, x, y), 0, c)
  {
    var t := Final(root, x, y);
    assert t.Keys == {0, 1, 2} && |t| == |t.Keys| == 3;
    assert NodeShape(t, 0);
    assert NodeShape(t, 1) && NodeShape(t, 2);
  }

  lemma FinalHonest<S(!new)>(th: Theory<S>, root: Core<S>, x: Core<S>, y: Core<S>)
    requires th.valid(root) && th.valid(x) && th.valid(y) && th.child(root, x) && th.child(root, y) && th.live(x)
    requires !th.live(y)
    ensures Honest(th, Final(root, x, y))
  {
    var t := Final(root, x, y);
    assert t[0].unexplored == [1] && t[0].successors == [2] && IsKid(t[0], 1) && t[1].core == x;
    assert SomeLiveKid(th, t, 0);
    assert Sane(th, t, 0);
    assert NodeHonest(th, t, 1) && NodeHonest(th, t, 2);
  }

  lemma Rolls()
    ensures Rolled(DOMAIN, ROOT, 1, 1, Solved(0.0)) && Rolled(DOMAIN, FAILED, 1, 1, Refuted)
  {
    Verdicts();
    assert Reaches(DOMAIN, ROOT, 1, 0.0);
    assert [0.0][..0] == [] && SumOf([0.0]) == 0.0;
    assert Sums(DOMAIN, ROOT, 1, 1, 0.0, [0.0]);
  }

  /** After two iterations that the search may take, every explored child of the root is refuted, and
      the report that nothing applies would be wrong: there is a plan. */
  lemma ReportedInError()
    ensures Rolled(DOMAIN, ROOT, 1, 1, Solved(0.0)) && Rolled(DOMAIN, FAILED, 1, 1, Refuted)
    ensures Concluded(First(ROOT), Second(ROOT), 0, Solved(0.0), 1)
    ensures Attached(Second(ROOT), Third(ROOT, FITTED, FAILED), 0, [FITTED, FAILED], [1, 2], 2)
    ensures var t := Final(ROOT, FITTED, FAILED);
      && Concluded(Third(ROOT, FITTED, FAILED), t, 2, Refuted, 1)
      && Good(Meaning(DOMAIN), t) && (forall c :: !LiveKid(t, 0, c)) && HasKids(t[0])
      && !Proves(t[0]) && Solvable(DOMAIN, t[0].core.point)
  {
    hide Shape, Honest, Rolled, Concluded, Attached, Solvable, IsChild, Valid;
    Rolls();
    Verdicts();
    Children();
    FreeGo();
    Taken(ROOT, FITTED, FAILED);
    CreditedTwice(ROOT, FITTED, FAILED);
    FinalShape(ROOT, FITTED, FAILED);
    FinalHonest(Meaning(DOMAIN), ROOT, FITTED, FAILED);
  }
}
