/** The bookkeeping of a search tree (lib/typedefs.h, `pNode`; lib/cpphop/cppMCTShop.h), apart
    from what its nodes mean: `Theory` says which points can still be solved and which node is a
    child of which. */
module SearchTree {
  import opened Basics
  import opened Networks
  import opened Progression

  /** What a node is, fixed when it is made: its point, the plan so far, and, for a decomposition,
      the task decomposed, the tasks that replaced it and the method. */
  datatype Core<!S> = Core(point: Point<S>, plan: seq<Step>, prev: int, added: seq<nat>, way: string)

  datatype TreeNode<!S> = TreeNode(core: Core<S>, score: real, sims: nat, pred: int, deadend: bool,
                                   successors: seq<nat>, unexplored: seq<nat>)

  type Nodes<!S> = map<nat, TreeNode<S>>

  datatype Theory<!S> = Theory(valid: Core<S> -> bool, live: Core<S> -> bool, child: (Core<S>, Core<S>) -> bool)

  predicate IsKid<S>(v: TreeNode<S>, c: nat) {
    c in v.successors || c in v.unexplored
  }

  predicate HasKids<S>(v: TreeNode<S>) {
    v.successors != [] || v.unexplored != []
  }

  function NewNode<S>(c: Core<S>, pred: int): TreeNode<S> {
    TreeNode(c, 0.0, 0, pred, false, [], [])
  }

  // ----- Invariants -----

  ghost predicate Numbered<S>(t: Nodes<S>) {
    forall v: nat :: v in t <==> v < |t|
  }

  lemma SameKeys<S>(t: Nodes<S>, b: Nodes<S>)
    requires b.Keys == t.Keys && Numbered(t)
    ensures Numbered(b)
  {
    assert |b.Keys| == |t.Keys|;
  }

  /** Ids count up from the root, 0. */
  ghost predicate Shape<S>(t: Nodes<S>) {
    && 0 in t
    && Numbered(t)
    && (forall v <- t :: NodeShape(t, v))
  }

  /** A child comes after its parent and points back to it; a node not yet explored is untouched. */
  ghost predicate NodeShape<S>(t: Nodes<S>, v: nat)
    requires v in t
  {
    && (if v == 0 then t[v].pred == -1 else 0 <= t[v].pred < v)
    && (forall c: nat | IsKid(t[v], c) :: c in t && c > v && t[c].pred == v)
    && (forall c <- t[v].unexplored :: c in t ==> !t[c].deadend && !HasKids(t[c]))
    && (forall c <- t[v].successors :: c !in t[v].unexplored)
    && (forall i, j :: 0 <= i < j < |t[v].successors| ==> t[v].successors[i] != t[v].successors[j])
    && (forall i, j :: 0 <= i < j < |t[v].unexplored| ==> t[v].unexplored[i] != t[v].unexplored[j])
  }

  ghost predicate Explored<S>(t: Nodes<S>, v: nat) {
    forall w <- t :: v !in t[w].unexplored
  }

  lemma SuccessorExplored<S>(t: Nodes<S>, v: nat, c: nat)
    requires Shape(t) && v in t && c in t[v].successors
    ensures c in t && Explored(t, c)
  {
    assert NodeShape(t, v) && IsKid(t[v], c);
    forall w | w in t
      ensures c !in t[w].unexplored
    {
      assert NodeShape(t, w);
    }
  }

  lemma RootExplored<S>(t: Nodes<S>)
    requires Shape(t)
    ensures Explored(t, 0)
  {
    forall w | w in t
      ensures 0 !in t[w].unexplored
    {
      assert NodeShape(t, w);
    }
  }

  ghost predicate Honest<S(!new)>(th: Theory<S>, t: Nodes<S>) {
    forall v <- t :: NodeHonest(th, t, v)
  }

  /** Dead ends are proofs, and an expanded node's children stand for all its moves. */
  ghost predicate NodeHonest<S(!new)>(th: Theory<S>, t: Nodes<S>, v: nat)
    requires v in t
  {
    Sane(th, t, v) && (HasKids(t[v]) && th.live(t[v].core) ==> SomeLiveKid(th, t, v))
  }

  ghost predicate Sane<S(!new)>(th: Theory<S>, t: Nodes<S>, v: nat)
    requires v in t
  {
    && th.valid(t[v].core)
    && (t[v].deadend ==> !th.live(t[v].core))
    && (forall c: nat | IsKid(t[v], c) :: c in t ==> th.child(t[v].core, t[c].core))
  }

  ghost predicate SomeLiveKid<S(!new)>(th: Theory<S>, t: Nodes<S>, v: nat)
    requires v in t
  {
    exists c: nat :: IsKid(t[v], c) && c in t && th.live(t[c].core)
  }

  /** Every selected node has been visited, so its mean is defined. */
  ghost predicate Visited<S>(t: Nodes<S>, pending: set<nat>) {
    forall v <- t :: forall c <- t[v].successors :: c in t && c !in pending ==> t[c].sims > 0
  }

  ghost predicate Good<S(!new)>(th: Theory<S>, t: Nodes<S>) {
    Shape(t) && Honest(th, t)
  }

  /** What any further search keeps: nodes stay what they are, dead ends stay dead, and a node that
      has children has those children for good. */
  ghost predicate Later<S>(a: Nodes<S>, b: Nodes<S>) {
    forall v <- a :: v in b && NodeLater(a[v], b[v])
  }

  ghost predicate NodeLater<S>(a: TreeNode<S>, b: TreeNode<S>) {
    && b.core == a.core && b.pred == a.pred && (a.deadend ==> b.deadend) && a.sims <= b.sims
    && (HasKids(a) ==> forall c :: IsKid(a, c) <==> IsKid(b, c))
    && a.successors <= b.successors
  }

  lemma NodeLaterTrans<S>(a: TreeNode<S>, b: TreeNode<S>, c: TreeNode<S>)
    requires NodeLater(a, b) && NodeLater(b, c)
    ensures NodeLater(a, c)
  {
    if HasKids(a) {
      assert IsKid(a, if a.successors != [] then a.successors[0] else a.unexplored[0]);
      assert HasKids(b);
    }
  }

  lemma LaterTrans<S>(a: Nodes<S>, b: Nodes<S>, c: Nodes<S>)
    requires Later(a, b) && Later(b, c)
    ensures Later(a, c)
  {
    forall v | v in a
      ensures v in c && NodeLater(a[v], c[v])
    {
      NodeLaterTrans(a[v], b[v], c[v]);
    }
  }

  // ----- Changes to what is known of nodes -----

  /** Nodes that differ only in what the search has learned of them. */
  ghost predicate SameNode<S>(a: TreeNode<S>, b: TreeNode<S>) {
    b.core == a.core && b.pred == a.pred && b.successors == a.successors && b.unexplored == a.unexplored
  }

  ghost predicate SameTree<S>(a: Nodes<S>, b: Nodes<S>) {
    a.Keys == b.Keys && forall v <- a :: SameNode(a[v], b[v])
  }

  lemma SameNodeShape<S>(a: Nodes<S>, b: Nodes<S>, v: nat)
    requires SameTree(a, b) && v in a && NodeShape(a, v)
    requires forall c <- b[v].unexplored :: c in b ==> !b[c].deadend
    ensures NodeShape(b, v)
  {
    assert SameNode(a[v], b[v]);
    forall c: nat | IsKid(b[v], c)
      ensures c in b && c > v && b[c].pred == v
    {
      assert SameNode(a[c], b[c]);
    }
  }

  lemma SameTreeShape<S>(a: Nodes<S>, b: Nodes<S>)
    requires SameTree(a, b) && Shape(a)
    requires forall v <- b :: forall c <- b[v].unexplored :: c in b ==> !b[c].deadend
    ensures Shape(b)
  {
    SameKeys(a, b);
    forall v | v in b
      ensures NodeShape(b, v)
    {
      SameNodeShape(a, b, v);
    }
  }

  lemma SameNodeHonest<S(!new)>(th: Theory<S>, a: Nodes<S>, b: Nodes<S>, v: nat)
    requires SameTree(a, b) && v in a && NodeHonest(th, a, v)
    requires b[v].deadend ==> !th.live(b[v].core)
    ensures NodeHonest(th, b, v)
  {
    assert SameNode(a[v], b[v]);
    assert forall c <- a :: SameNode(a[c], b[c]);
    if SomeLiveKid(th, a, v) {
      var c: nat :| IsKid(a[v], c) && c in a && th.live(a[c].core);
      assert IsKid(b[v], c) && c in b && th.live(b[c].core);
    }
  }

  lemma SameTreeHonest<S(!new)>(th: Theory<S>, a: Nodes<S>, b: Nodes<S>)
    requires SameTree(a, b) && Honest(th, a)
    requires forall v <- b :: b[v].deadend ==> !th.live(b[v].core)
    ensures Honest(th, b)
  {
    forall v | v in b
      ensures NodeHonest(th, b, v)
    {
      SameNodeHonest(th, a, b, v);
    }
  }

  lemma SameTreeLater<S>(a: Nodes<S>, b: Nodes<S>)
    requires SameTree(a, b) && forall v <- a :: (a[v].deadend ==> b[v].deadend) && a[v].sims <= b[v].sims
    ensures Later(a, b)
  {
    forall v | v in a
      ensures v in b && NodeLater(a[v], b[v])
    {
      assert SameNode(a[v], b[v]);
    }
  }

  function MarkDead<S>(t: Nodes<S>, v: nat): Nodes<S>
    requires v in t
  {
    t[v := t[v].(deadend := true)]
  }

  lemma MarkDeadNode<S>(t: Nodes<S>, v: nat, w: nat)
    requires v in t && w in t && NodeShape(t, w) && Explored(t, v)
    ensures NodeShape(MarkDead(t, v), w)
  {
  }

  lemma MarkDeadShape<S>(t: Nodes<S>, v: nat)
    requires Shape(t) && v in t && Explored(t, v)
    ensures Shape(MarkDead(t, v))
  {
    var b := MarkDead(t, v);
    SameKeys(t, b);
    forall w | w in b
      ensures NodeShape(b, w)
    {
      MarkDeadNode(t, v, w);
    }
  }

  lemma MarkDeadHonest<S(!new)>(th: Theory<S>, t: Nodes<S>, v: nat)
    requires Honest(th, t) && v in t && !th.live(t[v].core)
    ensures Honest(th, MarkDead(t, v))
  {
    var b := MarkDead(t, v);
    forall w | w in b && b[w].deadend
      ensures !th.live(b[w].core)
    {
      assert NodeHonest(th, t, w);
    }
    SameTreeHonest(th, t, b);
  }

  lemma MarkDeadKeeps<S(!new)>(th: Theory<S>, t: Nodes<S>, v: nat)
    requires Good(th, t) && v in t && !th.live(t[v].core)
    requires Explored(t, v)
    ensures Good(th, MarkDead(t, v)) && Later(t, MarkDead(t, v))
  {
    MarkDeadShape(t, v);
    MarkDeadHonest(th, t, v);
    MarkDeadLater(t, v);
  }

  lemma MarkDeadLater<S>(t: Nodes<S>, v: nat)
    requires v in t
    ensures Later(t, MarkDead(t, v))
  {
    SameTreeLater(t, MarkDead(t, v));
  }

  // ----- Taking an unexplored child -----

  function PopChild<S>(t: Nodes<S>, v: nat): Nodes<S>
    requires v in t && t[v].unexplored != []
  {
    var u := t[v].unexplored;
    t[v := t[v].(unexplored := u[..|u| - 1], successors := t[v].successors + [u[|u| - 1]])]
  }

  lemma PopKids<S>(t: Nodes<S>, v: nat)
    requires v in t && t[v].unexplored != []
    ensures forall c :: IsKid(PopChild(t, v)[v], c) <==> IsKid(t[v], c)
    ensures forall c <- PopChild(t, v)[v].unexplored :: c in t[v].unexplored
  {
    var u := t[v].unexplored;
    assert u == u[..|u| - 1] + [u[|u| - 1]];
  }

  lemma PopNodeShape<S>(t: Nodes<S>, v: nat, w: nat)
    requires v in t && t[v].unexplored != [] && w in t && NodeShape(t, w) && NodeShape(t, v)
    ensures NodeShape(PopChild(t, v), w)
  {
    PopKids(t, v);
    if w == v {
      var u, s := t[v].unexplored, t[v].successors;
      assert u[|u| - 1] in u;
      forall i | 0 <= i < |s|
        ensures s[i] != u[|u| - 1]
      {
        assert s[i] in s;
      }
    }
  }

  lemma PopShape<S>(t: Nodes<S>, v: nat)
    requires Shape(t) && v in t && t[v].unexplored != []
    ensures Shape(PopChild(t, v))
  {
    var b := PopChild(t, v);
    SameKeys(t, b);
    forall w | w in b
      ensures NodeShape(b, w)
    {
      assert NodeShape(t, v);
      PopNodeShape(t, v, w);
    }
  }

  lemma PopNodeHonest<S(!new)>(th: Theory<S>, t: Nodes<S>, v: nat, w: nat)
    requires v in t && t[v].unexplored != [] && w in t && NodeHonest(th, t, w)
    ensures NodeHonest(th, PopChild(t, v), w)
  {
    PopKids(t, v);
    var b := PopChild(t, v);
    assert forall c <- t :: b[c].core == t[c].core;
    if SomeLiveKid(th, t, w) {
      var c: nat :| IsKid(t[w], c) && c in t && th.live(t[c].core);
      assert IsKid(b[w], c) && c in b && th.live(b[c].core);
    }
  }

  lemma PopKeeps<S(!new)>(th: Theory<S>, t: Nodes<S>, v: nat)
    requires Good(th, t) && v in t && t[v].unexplored != []
    ensures Good(th, PopChild(t, v)) && Later(t, PopChild(t, v))
  {
    PopShape(t, v);
    forall w | w in PopChild(t, v)
      ensures NodeHonest(th, PopChild(t, v), w)
    {
      PopNodeHonest(th, t, v, w);
    }
    PopLater(t, v);
  }

  lemma PopLater<S>(t: Nodes<S>, v: nat)
    requires v in t && t[v].unexplored != []
    ensures Later(t, PopChild(t, v))
  {
    PopKids(t, v);
  }

  // ----- Credit -----

  ghost predicate Rooted<S>(t: Nodes<S>) {
    forall v {:trigger t[v]} :: v in t ==> -1 <= t[v].pred < v && (t[v].pred >= 0 ==> t[v].pred in t)
  }

  /** A node and everything above it. */
  ghost function Line<S>(t: Nodes<S>, n: int): set<nat>
    requires Rooted(t) && (n >= 0 ==> n in t)
    decreases n
  {
    if n < 0 then {} else Line(t, t[n].pred) + {n}
  }

  lemma {:induction false} LineBelow<S>(t: Nodes<S>, n: int)
    requires Rooted(t) && (n >= 0 ==> n in t)
    ensures forall v <- Line(t, n) :: v <= n && v in t
    decreases n
  {
    if n >= 0 { LineBelow(t, t[n].pred); }
  }

  lemma ShapeRooted<S>(t: Nodes<S>)
    requires Shape(t)
    ensures Rooted(t)
  {
    forall v | v in t
      ensures -1 <= t[v].pred < v && (t[v].pred >= 0 ==> t[v].pred in t)
    {
      assert NodeShape(t, v);
    }
  }

  lemma {:induction false} RootInLine<S>(t: Nodes<S>, n: nat)
    requires Shape(t) && Rooted(t) && n in t
    ensures 0 in Line(t, n) && 0 in t
    decreases n
  {
    assert NodeShape(t, n);
    if n > 0 { RootInLine(t, t[n].pred); }
  }

  function Credited<S>(v: TreeNode<S>, r: real, k: nat): TreeNode<S> {
    v.(score := v.score + r, sims := v.sims + k)
  }

  /** `t` is `t0` with a result added to `n` and to everything above it. */
  ghost predicate Backed<S>(t0: Nodes<S>, t: Nodes<S>, n: nat, r: real, k: nat)
    requires Rooted(t0) && n in t0
  {
    t.Keys == t0.Keys && forall v <- t :: t[v] == if v in Line(t0, n) then Credited(t0[v], r, k) else t0[v]
  }

  lemma BackedSame<S>(t0: Nodes<S>, t: Nodes<S>, n: nat, r: real, k: nat)
    requires Rooted(t0) && n in t0 && Backed(t0, t, n, r, k)
    ensures SameTree(t0, t) && (forall v <- t :: t[v].deadend == t0[v].deadend && t0[v].sims <= t[v].sims)
    ensures t[n].sims == t0[n].sims + k
  {
    assert n in Line(t0, n);
  }

  lemma BackedGood<S(!new)>(th: Theory<S>, t0: Nodes<S>, t: Nodes<S>, n: nat, r: real, k: nat)
    requires Good(th, t0) && Rooted(t0) && n in t0 && Backed(t0, t, n, r, k)
    ensures Good(th, t) && Later(t0, t)
  {
    BackedSame(t0, t, n, r, k);
    forall v, c | v in t && c in t[v].unexplored && c in t
      ensures !t[c].deadend
    {
      assert SameNode(t0[v], t[v]) && NodeShape(t0, v);
    }
    SameTreeShape(t0, t);
    forall v | v in t && t[v].deadend
      ensures !th.live(t[v].core)
    {
      assert SameNode(t0[v], t[v]) && NodeHonest(th, t0, v);
    }
    SameTreeHonest(th, t0, t);
    SameTreeLater(t0, t);
  }

  /** Crediting the node just selected leaves every selected node visited. */
  lemma BackedVisited<S>(t0: Nodes<S>, t: Nodes<S>, n: nat, r: real, k: nat)
    requires Rooted(t0) && n in t0 && Backed(t0, t, n, r, k) && k > 0 && Visited(t0, {n})
    ensures Visited(t, {})
  {
    BackedSame(t0, t, n, r, k);
    forall v, c | v in t && c in t[v].successors && c in t
      ensures t[c].sims > 0
    {
      assert SameNode(t0[v], t[v]);
    }
  }

  /** `done` is the part of the line from `n` that lies below `cur`. */
  ghost predicate Upto<S>(t: Nodes<S>, n: nat, done: set<nat>, cur: int)
    requires Rooted(t) && n in t && (cur >= 0 ==> cur in t)
  {
    done + Line(t, cur) == Line(t, n) && done !! Line(t, cur)
  }

  lemma UptoOne<S>(t: Nodes<S>, n: nat, done: set<nat>, c: nat)
    requires Rooted(t) && n in t && c in t && Upto(t, n, done, c)
    ensures c !in done && Upto(t, n, done + {c}, t[c].pred)
  {
    LineBelow(t, t[c].pred);
    assert Line(t, c) == Line(t, t[c].pred) + {c};
  }

  ghost predicate CreditedOn<S>(t0: Nodes<S>, t: Nodes<S>, path: set<nat>, r: real, k: nat) {
    t.Keys == t0.Keys && forall v <- t :: t[v] == if v in path then Credited(t0[v], r, k) else t0[v]
  }

  lemma CreditOne<S>(t0: Nodes<S>, t: Nodes<S>, path: set<nat>, r: real, k: nat, c: nat)
    requires CreditedOn(t0, t, path, r, k) && c in t && c !in path
    ensures CreditedOn(t0, t[c := Credited(t[c], r, k)], path + {c}, r, k)
  {
  }

  // ----- Selection -----

  /** A child generated and selected before, and not refuted. */
  ghost predicate LiveKid<S>(t: Nodes<S>, v: nat, c: nat)
    requires v in t
  {
    c in t[v].successors && c in t && !t[c].deadend
  }

  function LiveNodes<S>(t: Nodes<S>): set<nat> {
    set v | v in t && !t[v].deadend
  }

  /** With every child refuted, so is the node. */
  lemma NoLiveKid<S(!new)>(th: Theory<S>, t: Nodes<S>, v: nat)
    requires Good(th, t) && v in t && t[v].successors != [] && t[v].unexplored == []
    requires forall c <- t[v].successors :: c in t ==> t[c].deadend
    ensures !th.live(t[v].core)
  {
    assert NodeHonest(th, t, v);
    forall c: nat | IsKid(t[v], c) && c in t
      ensures !th.live(t[c].core)
    {
      assert NodeHonest(th, t, c);
    }
  }

  /** Where selection stands: at a node with nothing unexplored, dead only if it is the root. */
  ghost predicate Ready<S(!new)>(th: Theory<S>, t: Nodes<S>, v: nat) {
    && Good(th, t) && Visited(t, {}) && v in t && t[v].unexplored == [] && (t[v].deadend ==> v == 0)
    && t[0].unexplored == [] && Explored(t, v)
  }

  lemma SuccessorsReady<S(!new)>(th: Theory<S>, t: Nodes<S>, v: nat)
    requires Ready(th, t, v)
    ensures forall c <- t[v].successors :: c in t && c > v && t[c].sims > 0
    ensures v < |t| && forall c <- t[v].successors :: c < |t| && Explored(t, c)
  {
    assert NodeShape(t, v);
    forall c | c in t[v].successors
      ensures c in t && c > v && Explored(t, c)
    {
      assert IsKid(t[v], c);
      SuccessorExplored(t, v, c);
    }
  }

  /** A node whose children are all refuted may be marked, and selection starts over. */
  lemma DeadEndFound<S(!new)>(th: Theory<S>, t0: Nodes<S>, t: Nodes<S>, v: nat)
    requires Ready(th, t, v) && Later(t0, t) && t[v].successors != [] && !t[v].deadend
    requires forall c <- t[v].successors :: c in t ==> t[c].deadend
    ensures Ready(th, MarkDead(t, v), 0) && Later(t0, MarkDead(t, v))
    ensures LiveNodes(MarkDead(t, v)) < LiveNodes(t)
  {
    NoLiveKid(th, t, v);
    MarkDeadKeeps(th, t, v);
    MarkDeadVisited(t, v);
    RootExplored(MarkDead(t, v));
    LaterTrans(t0, t, MarkDead(t, v));
    FewerLive(t, v);
  }

  lemma FewerLive<S>(t: Nodes<S>, v: nat)
    requires v in t && !t[v].deadend
    ensures LiveNodes(MarkDead(t, v)) < LiveNodes(t)
  {
    assert v in LiveNodes(t) && v !in LiveNodes(MarkDead(t, v));
  }

  lemma MarkDeadVisited<S>(t: Nodes<S>, v: nat)
    requires Visited(t, {}) && v in t
    ensures Visited(MarkDead(t, v), {})
  {
  }

  lemma PopVisited<S>(t: Nodes<S>, v: nat)
    requires Visited(t, {}) && v in t && t[v].unexplored != []
    ensures Visited(PopChild(t, v), {t[v].unexplored[|t[v].unexplored| - 1]})
  {
  }

  lemma PopEffects<S(!new)>(th: Theory<S>, t: Nodes<S>, v: nat)
    requires Good(th, t) && Visited(t, {}) && v in t && t[v].unexplored != []
    ensures var u := t[v].unexplored; var w := u[|u| - 1]; var t' := PopChild(t, v);
      && Good(th, t') && Later(t, t') && w in t' && Visited(t', {w}) && !t'[w].deadend && !HasKids(t'[w])
      && Explored(t', w)
  {
    PopKeeps(th, t, v);
    SuccessorExplored(PopChild(t, v), v, t[v].unexplored[|t[v].unexplored| - 1]);
    assert NodeShape(t, v);
    var u := t[v].unexplored;
    var w := u[|u| - 1];
    assert IsKid(t[v], w);
    PopVisited(t, v);
  }

  // ----- Growing children -----

  function AddKid<S>(t: Nodes<S>, n: nat, c: Core<S>): Nodes<S>
    requires n in t
  {
    t[|t| := NewNode(c, n)][n := t[n].(unexplored := t[n].unexplored + [|t|])]
  }

  /** The nodes from `lo` on are new, untouched children of `n`, and no others are. */
  ghost predicate NewKids<S>(t: Nodes<S>, n: nat, lo: nat) {
    && n in t && n < lo <= |t| && |t[n].unexplored| == |t| - lo
    && (forall i :: 0 <= i < |t[n].unexplored| ==> t[n].unexplored[i] == lo + i)
  }

  ghost predicate NewKid<S(!new)>(th: Theory<S>, parent: Core<S>, v: TreeNode<S>, n: nat) {
    v == NewNode(v.core, n) && th.valid(v.core) && th.child(parent, v.core)
  }

  /** Every node but `n` is as it was, and `n` differs in its unexplored children only. */
  ghost predicate KeptBut<S>(t0: Nodes<S>, t: Nodes<S>, n: nat) {
    n in t0 && forall v <- t0 ::
        v in t && (if v == n then t[v] == t0[v].(unexplored := t[v].unexplored) else t[v] == t0[v])
  }

  /** `t` is `t0` with new children of `n`, all of them still unexplored. */
  ghost predicate Growing<S(!new)>(th: Theory<S>, t0: Nodes<S>, t: Nodes<S>, n: nat) {
    && Numbered(t0) && Numbered(t) && KeptBut(t0, t, n) && NewKids(t, n, |t0|)
    && (forall v <- t :: v >= |t0| ==> NewKid(th, t0[n].core, t[v], n))
  }

  /** Some new child has core `c`. */
  ghost predicate HasKid<S(!new)>(t0: Nodes<S>, t: Nodes<S>, c: Core<S>) {
    exists v: nat :: |t0| <= v && v in t && t[v].core == c
  }

  lemma AddKidAt<S>(t: Nodes<S>, n: nat, c: Core<S>)
    requires Numbered(t) && n in t
    ensures var b := AddKid(t, n, c);
      && Numbered(b) && |b| == |t| + 1 && |t| in b && b[|t|] == NewNode(c, n)
      && KeptBut(t, b, n) && b[n].unexplored == t[n].unexplored + [|t|]
      && forall v <- b :: v in t || v == |t|
  {
    var b := AddKid(t, n, c);
    assert |t| !in t;
    assert b.Keys == t.Keys + {|t|};
  }

  lemma KeptTrans<S>(t0: Nodes<S>, t: Nodes<S>, b: Nodes<S>, n: nat)
    requires KeptBut(t0, t, n) && KeptBut(t, b, n)
    ensures KeptBut(t0, b, n)
  {
    forall v | v in t0
      ensures v in b && (if v == n then b[v] == t0[v].(unexplored := b[v].unexplored) else b[v] == t0[v])
    {
      assert v in t;
    }
  }

  lemma GrowOne<S(!new)>(th: Theory<S>, t0: Nodes<S>, t: Nodes<S>, n: nat, c: Core<S>)
    requires Growing(th, t0, t, n) && th.valid(c) && th.child(t0[n].core, c)
    ensures Growing(th, t0, AddKid(t, n, c), n)
  {
    var b := AddKid(t, n, c);
    AddKidAt(t, n, c);
    KeptTrans(t0, t, b, n);
    forall v | v in b && v >= |t0|
      ensures NewKid(th, t0[n].core, b[v], n)
    {
      if v < |t| { assert b[v] == t[v]; }
    }
  }

  lemma GrowKeepsKids<S(!new)>(t0: Nodes<S>, t: Nodes<S>, n: nat, c: Core<S>)
    requires Numbered(t) && n in t && n < |t0| <= |t|
    ensures HasKid(t0, AddKid(t, n, c), c)
    ensures forall k :: HasKid(t0, t, k) ==> HasKid(t0, AddKid(t, n, c), k)
  {
    AddKidAt(t, n, c);
    var b := AddKid(t, n, c);
    forall k | HasKid(t0, t, k)
      ensures HasKid(t0, b, k)
    {
      var v: nat :| |t0| <= v && v in t && t[v].core == k;
      assert v in b && b[v].core == k;
    }
  }

  lemma KidIsKid<S(!new)>(th: Theory<S>, t0: Nodes<S>, t: Nodes<S>, n: nat, c: Core<S>)
    requires Growing(th, t0, t, n) && HasKid(t0, t, c) && th.live(c)
    ensures SomeLiveKid(th, t, n)
  {
    var v: nat :| |t0| <= v && v in t && t[v].core == c;
    assert t[n].unexplored[v - |t0|] == v;
    assert IsKid(t[n], v);
  }

  lemma OldShape<S>(t0: Nodes<S>, t: Nodes<S>, n: nat, v: nat)
    requires KeptBut(t0, t, n) && v in t0 && v != n && NodeShape(t0, v) && Explored(t0, n)
    ensures NodeShape(t, v)
  {
    forall c: nat | IsKid(t[v], c)
      ensures c in t && c > v && t[c].pred == v
    {
      assert IsKid(t0[v], c);
    }
    forall c | c in t[v].unexplored && c in t
      ensures !t[c].deadend && !HasKids(t[c])
    {
      assert IsKid(t0[v], c) && c != n;
    }
  }

  lemma ParentShape<S(!new)>(th: Theory<S>, t0: Nodes<S>, t: Nodes<S>, n: nat)
    requires Growing(th, t0, t, n) && NodeShape(t0, n) && !HasKids(t0[n])
    ensures NodeShape(t, n)
  {
    forall c: nat | IsKid(t[n], c)
      ensures c in t && c >= |t0| && NewKid(th, t0[n].core, t[c], n)
    {
    }
  }

  lemma OldHonest<S(!new)>(th: Theory<S>, t0: Nodes<S>, t: Nodes<S>, n: nat, v: nat)
    requires KeptBut(t0, t, n) && v in t0 && v != n && NodeShape(t0, v) && NodeHonest(th, t0, v)
    ensures NodeHonest(th, t, v)
  {
    forall c: nat | IsKid(t[v], c) && c in t
      ensures c in t0 && t[c].core == t0[c].core
    {
      assert IsKid(t0[v], c);
    }
    if SomeLiveKid(th, t0, v) {
      var c: nat :| IsKid(t0[v], c) && c in t0 && th.live(t0[c].core);
      assert IsKid(t[v], c) && c in t && th.live(t[c].core);
    }
  }

  lemma ParentHonest<S(!new)>(th: Theory<S>, t0: Nodes<S>, t: Nodes<S>, n: nat)
    requires Growing(th, t0, t, n) && NodeHonest(th, t0, n) && !HasKids(t0[n])
    requires HasKids(t[n]) && th.live(t[n].core) ==> SomeLiveKid(th, t, n)
    ensures NodeHonest(th, t, n)
  {
    forall c: nat | IsKid(t[n], c) && c in t
      ensures NewKid(th, t0[n].core, t[c], n)
    {
    }
  }

  lemma KeptLater<S>(t0: Nodes<S>, t: Nodes<S>, n: nat)
    requires KeptBut(t0, t, n) && !HasKids(t0[n])
    ensures Later(t0, t)
  {
    forall v | v in t0
      ensures v in t && NodeLater(t0[v], t[v])
    {
    }
  }

  lemma GrownShape<S(!new)>(th: Theory<S>, t0: Nodes<S>, t: Nodes<S>, n: nat)
    requires Shape(t0) && Growing(th, t0, t, n) && !HasKids(t0[n]) && Explored(t0, n)
    ensures Shape(t)
  {
    forall v | v in t
      ensures NodeShape(t, v)
    {
      if v == n {
        ParentShape(th, t0, t, n);
      } else if v in t0 {
        OldShape(t0, t, n, v);
      } else {
        assert NewKid(th, t0[n].core, t[v], n);
      }
    }
  }

  lemma GrownHonest<S(!new)>(th: Theory<S>, t0: Nodes<S>, t: Nodes<S>, n: nat)
    requires Good(th, t0) && Growing(th, t0, t, n) && !HasKids(t0[n])
    requires HasKids(t[n]) && th.live(t[n].core) ==> SomeLiveKid(th, t, n)
    ensures Honest(th, t)
  {
    forall v | v in t
      ensures NodeHonest(th, t, v)
    {
      if v == n {
        ParentHonest(th, t0, t, n);
      } else if v in t0 {
        OldHonest(th, t0, t, n, v);
      } else {
        assert NewKid(th, t0[n].core, t[v], n);
      }
    }
  }

  lemma OldVisited<S>(t0: Nodes<S>, t: Nodes<S>, n: nat, v: nat)
    requires KeptBut(t0, t, n) && v in t0 && NodeShape(t0, v) && Visited(t0, {})
    ensures forall c <- t[v].successors :: c in t ==> t[c].sims > 0
  {
    forall c | c in t[v].successors && c in t
      ensures t[c].sims > 0
    {
      assert IsKid(t0[v], c);
    }
  }

  lemma GrownVisited<S(!new)>(th: Theory<S>, t0: Nodes<S>, t: Nodes<S>, n: nat)
    requires Shape(t0) && Growing(th, t0, t, n) && !HasKids(t0[n]) && Visited(t0, {})
    ensures Visited(t, {})
  {
    forall v | v in t && v !in t0
      ensures t[v].successors == []
    {
      assert NewKid(th, t0[n].core, t[v], n);
    }
    forall v | v in t0
      ensures forall c <- t[v].successors :: c in t ==> t[c].sims > 0
    {
      OldVisited(t0, t, n, v);
    }
  }

  lemma Grown<S(!new)>(th: Theory<S>, t0: Nodes<S>, t: Nodes<S>, n: nat)
    requires Good(th, t0) && Growing(th, t0, t, n) && !HasKids(t0[n]) && Explored(t0, n) && Visited(t0, {})
    requires HasKids(t[n]) && th.live(t[n].core) ==> SomeLiveKid(th, t, n)
    ensures Good(th, t) && Later(t0, t) && Visited(t, {})
  {
    GrownShape(th, t0, t, n);
    GrownHonest(th, t0, t, n);
    KeptLater(t0, t, n);
    GrownVisited(th, t0, t, n);
  }

  function WithUnexplored<S>(t: Nodes<S>, n: nat, u: seq<nat>): Nodes<S>
    requires n in t
  {
    t[n := t[n].(unexplored := u)]
  }

  /** The order in which the unexplored children are kept does not matter. */
  lemma Reordered<S(!new)>(th: Theory<S>, t: Nodes<S>, n: nat, u: seq<nat>)
    requires Good(th, t) && n in t && t[n].successors == [] && Visited(t, {})
    requires forall x :: x in u <==> x in t[n].unexplored
    requires forall i, j :: 0 <= i < j < |u| ==> u[i] != u[j]
    ensures var b := WithUnexplored(t, n, u); Good(th, b) && Later(t, b) && Visited(b, {})
  {
    ReorderedShapeAll(t, n, u);
    ReorderedHonestAll(th, t, n, u);
    ReorderedLater(t, n, u);
  }

  lemma ReorderedShapeAll<S>(t: Nodes<S>, n: nat, u: seq<nat>)
    requires Shape(t) && n in t && t[n].successors == []
    requires forall x :: x in u <==> x in t[n].unexplored
    requires forall i, j :: 0 <= i < j < |u| ==> u[i] != u[j]
    ensures Shape(WithUnexplored(t, n, u))
  {
    var b := WithUnexplored(t, n, u);
    SameKeys(t, b);
    forall v | v in b
      ensures NodeShape(b, v)
    {
      ReorderedShape(t, n, u, v);
    }
  }

  lemma ReorderedHonestAll<S(!new)>(th: Theory<S>, t: Nodes<S>, n: nat, u: seq<nat>)
    requires Honest(th, t) && n in t && t[n].successors == []
    requires forall x :: x in u <==> x in t[n].unexplored
    ensures Honest(th, WithUnexplored(t, n, u))
  {
    forall v | v in t
      ensures NodeHonest(th, WithUnexplored(t, n, u), v)
    {
      ReorderedHonest(th, t, n, u, v);
    }
  }

  lemma ReorderedShape<S>(t: Nodes<S>, n: nat, u: seq<nat>, v: nat)
    requires n in t && t[n].successors == [] && v in t && NodeShape(t, v) && NodeShape(t, n)
    requires forall x :: x in u <==> x in t[n].unexplored
    requires forall i, j :: 0 <= i < j < |u| ==> u[i] != u[j]
    ensures NodeShape(WithUnexplored(t, n, u), v)
  {
    var b := WithUnexplored(t, n, u);
    assert v == n ==> forall c :: IsKid(b[v], c) <==> IsKid(t[v], c);
    assert u != [] ==> u[0] in t[n].unexplored;
  }

  lemma ReorderedHonest<S(!new)>(th: Theory<S>, t: Nodes<S>, n: nat, u: seq<nat>, v: nat)
    requires n in t && t[n].successors == [] && v in t && NodeHonest(th, t, v)
    requires forall x :: x in u <==> x in t[n].unexplored
    ensures NodeHonest(th, WithUnexplored(t, n, u), v)
  {
    var b := WithUnexplored(t, n, u);
    assert forall c :: IsKid(b[v], c) <==> IsKid(t[v], c);
    assert forall c <- t :: b[c].core == t[c].core;
    if SomeLiveKid(th, t, v) {
      var c: nat :| IsKid(t[v], c) && c in t && th.live(t[c].core);
      assert IsKid(b[v], c) && c in b && th.live(b[c].core);
    }
    if HasKids(b[v]) && v == n {
      assert u[0] in t[n].unexplored;
    }
  }

  lemma ReorderedLater<S>(t: Nodes<S>, n: nat, u: seq<nat>)
    requires n in t && t[n].successors == []
    requires forall x :: x in u <==> x in t[n].unexplored
    ensures Later(t, WithUnexplored(t, n, u))
  {
    var b := WithUnexplored(t, n, u);
    forall v | v in t
      ensures v in b && NodeLater(t[v], b[v])
    {
    }
  }

  /** The children appended one after another. */
  ghost function AddAll<S>(t: Nodes<S>, n: nat, kids: seq<Core<S>>): (b: Nodes<S>)
    requires n in t
    ensures n in b
  {
    if kids == [] then t else AddKid(AddAll(t, n, kids[..|kids| - 1]), n, kids[|kids| - 1])
  }

  ghost predicate GrownBy<S(!new)>(th: Theory<S>, t: Nodes<S>, b: Nodes<S>, n: nat, kids: seq<Core<S>>) {
    Growing(th, t, b, n) && |b| == |t| + |kids| && forall k <- kids :: HasKid(t, b, k)
  }

  lemma GrowStep<S(!new)>(th: Theory<S>, t: Nodes<S>, b: Nodes<S>, n: nat, kids: seq<Core<S>>, k: Core<S>)
    requires GrownBy(th, t, b, n, kids) && th.valid(k) && th.child(t[n].core, k)
    ensures GrownBy(th, t, AddKid(b, n, k), n, kids + [k])
  {
    GrowOne(th, t, b, n, k);
    GrowKeepsKids(t, b, n, k);
    AddKidAt(b, n, k);
  }

  lemma GrowNone<S(!new)>(th: Theory<S>, t: Nodes<S>, n: nat)
    requires Shape(t) && n in t && !HasKids(t[n])
    ensures GrownBy(th, t, t, n, [])
  {
  }

  lemma {:induction false} AddAllGrowing<S(!new)>(th: Theory<S>, t: Nodes<S>, n: nat, kids: seq<Core<S>>)
    requires Shape(t) && n in t && !HasKids(t[n])
    requires forall k <- kids :: th.valid(k) && th.child(t[n].core, k)
    ensures GrownBy(th, t, AddAll(t, n, kids), n, kids)
  {
    if kids == [] {
      GrowNone(th, t, n);
    } else {
      var rest, k := kids[..|kids| - 1], kids[|kids| - 1];
      assert kids == rest + [k];
      AddAllGrowing(th, t, n, rest);
      GrowStep(th, t, AddAll(t, n, rest), n, rest, k);
    }
  }

  lemma AddAllGood<S(!new)>(th: Theory<S>, t: Nodes<S>, n: nat, kids: seq<Core<S>>)
    requires Good(th, t) && Visited(t, {}) && n in t && Explored(t, n) && !HasKids(t[n])
    requires forall k <- kids :: th.valid(k) && th.child(t[n].core, k)
    requires th.live(t[n].core) ==> exists k <- kids :: th.live(k)
    ensures var b := AddAll(t, n, kids);
      && Good(th, b) && Later(t, b) && Visited(b, {})
      && b[n].successors == [] && |b[n].unexplored| == |kids|
      && forall i, j :: 0 <= i < j < |b[n].unexplored| ==> b[n].unexplored[i] != b[n].unexplored[j]
  {
    AddAllGrowing(th, t, n, kids);
    var b := AddAll(t, n, kids);
    if th.live(t[n].core) {
      var k :| k in kids && th.live(k);
      KidIsKid(th, t, b, n, k);
    }
    Grown(th, t, b, n);
  }

  /** A leaf given its children, in any order, is a sound node of the tree. */
  lemma AttachGood<S(!new)>(th: Theory<S>, t: Nodes<S>, n: nat, kids: seq<Core<S>>, u: seq<nat>)
    requires Good(th, t) && Visited(t, {}) && n in t && Explored(t, n) && !HasKids(t[n]) && kids != []
    requires forall k <- kids :: th.valid(k) && th.child(t[n].core, k)
    requires th.live(t[n].core) ==> exists k <- kids :: th.live(k)
    requires multiset(u) == multiset(AddAll(t, n, kids)[n].unexplored)
    ensures var b := AddAll(t, n, kids);
      var c := WithUnexplored(b, n, u);
      Good(th, c) && Later(t, c) && Visited(c, {}) && u != []
  {
    AddAllGood(th, t, n, kids);
    var b := AddAll(t, n, kids);
    ShuffledSame(b[n].unexplored, u);
    Reordered(th, b, n, u);
    LaterTrans(t, b, WithUnexplored(b, n, u));
  }

  /** Children given in some order, and the last of them taken. */
  ghost predicate Attached<S>(t0: Nodes<S>, t: Nodes<S>, n: nat, kids: seq<Core<S>>, u: seq<nat>, r: nat)
    requires n in t0
  {
    && multiset(u) == multiset(AddAll(t0, n, kids)[n].unexplored) && u != []
    && t == PopChild(WithUnexplored(AddAll(t0, n, kids), n, u), n) && r == u[|u| - 1]
  }

  lemma ShuffledSame(s: seq<nat>, u: seq<nat>)
    requires multiset(s) == multiset(u) && forall i, j :: 0 <= i < j < |s| ==> s[i] != s[j]
    ensures |u| == |s| && (forall x :: x in u <==> x in s) && forall i, j :: 0 <= i < j < |u| ==> u[i] != u[j]
  {
    ShuffledDistinct(s, u);
    assert |u| == |multiset(u)| == |multiset(s)| == |s|;
    forall x
      ensures x in u <==> x in s
    {
      assert x in u <==> x in multiset(u);
    }
  }

  lemma ShuffledDistinct(s: seq<nat>, u: seq<nat>)
    requires multiset(s) == multiset(u) && forall i, j :: 0 <= i < j < |s| ==> s[i] != s[j]
    ensures forall i, j :: 0 <= i < j < |u| ==> u[i] != u[j]
  {
    forall i, j | 0 <= i < j < |u|
      ensures u[i] != u[j]
    {
      if u[i] == u[j] {
        CountTwice(u, i, j);
        DistinctCount(s, u[i]);
      }
    }
  }

  lemma CountTwice(u: seq<nat>, i: nat, j: nat)
    requires i < j < |u| && u[i] == u[j]
    ensures multiset(u)[u[i]] >= 2
  {
    assert u == u[..j] + [u[j]] + u[j + 1..];
    assert u[..j][i] == u[i];
    assert multiset(u) == multiset(u[..j]) + multiset([u[j]]) + multiset(u[j + 1..]);
  }

  lemma {:induction false} DistinctCount(s: seq<nat>, x: nat)
    requires forall i, j :: 0 <= i < j < |s| ==> s[i] != s[j]
    ensures multiset(s)[x] <= 1
  {
    if s != [] {
      DistinctCount(s[1..], x);
      assert s == [s[0]] + s[1..];
      if s[0] == x {
        assert x !in s[1..];
      }
    }
  }
}
