/** Decomposing a task in place (lib/typedefs.h, `MethodDef::ground` and `apply_binding`): the copy
    of the network is rewritten step by step, and stands for what `Networks.Ground` says. */
module Grounding {
  import opened Basics
  import opened Networks
  import opened TaskGraphs

  function OwnChecks(mode: Mode, m: Body, b: Binding): seq<Check> {
    if Records(mode, m) then [OwnCheck(m, b)] else []
  }

  /** The network once `k` subtasks are in, with edges `edges` beside those kept. */
  function Stage(mode: Mode, n: Net, t: nat, m: Body, b: Binding, k: nat, edges: set<(nat, nat)>): Net
    requires t in n.tasks && k <= |m.subs|
  {
    var kept := RemoveTask(n, t);
    Net(kept.tasks + NewTasks(mode, n, t, m, b, k), kept.edges + edges, n.next + k, n.checks +
        OwnChecks(mode, m, b), n.step)
  }

  lemma StageDone(mode: Mode, n: Net, t: nat, m: Body, b: Binding)
    requires t in n.tasks
    ensures Stage(mode, n, t, m, b, |m.subs|, InheritedEdges(n, t, m, |m.subs|) + EdgesWithout(n, m, {})) ==
        Ground(mode, n, t, m, b)
  {
    WithoutNone(n, m);
  }

  lemma StageTask(mode: Mode, n: Net, t: nat, m: Body, b: Binding, k: nat, edges: set<(nat, nat)>)
    requires t in n.tasks && k < |m.subs|
    ensures AddTask(Stage(mode, n, t, m, b, k, edges), SubTask(mode, n, t, m, b, n.next + k)) ==
        Stage(mode, n, t, m, b, k + 1, edges)
  {
  }

  /** The successors of `t` but itself, as far as a list names them. */
  function EdgesTo(tid: nat, out: seq<nat>): set<(nat, nat)> {
    set o | o in out :: (tid, o)
  }

  lemma InheritedNext(n: Net, t: nat, m: Body, k: nat, out: seq<nat>)
    requires k < |m.subs| && forall o: nat :: o in out <==> (t, o) in n.edges
    requires (t, t) !in n.edges
    ensures InheritedEdges(n, t, m, k + 1) ==
        InheritedEdges(n, t, m, k) + (if Last(m, k) then EdgesTo(n.next + k, out) else {})
  {
    var tid := n.next + k;
    assert Last(m, k) ==> EdgesTo(tid, out) <= InheritedEdges(n, t, m, k + 1) by {
      forall o: nat | o in out && Last(m, k)
        ensures (tid, o) in InheritedEdges(n, t, m, k + 1)
      {
        var e := (t, o);
        assert e in n.edges && e.0 == t && e.1 == o;
      }
    }
    forall x: nat, y: nat | (x, y) in InheritedEdges(n, t, m, k + 1)
      ensures (x, y) in InheritedEdges(n, t, m, k) + (if Last(m, k) then EdgesTo(tid, out) else {})
    {
      var e :| e in n.edges && e.0 == t && e.1 != t && y ==
          e.1 && x >= n.next && x - n.next < k + 1 && Last(m, x - n.next);
      assert e == (t, e.1);
    }
  }

  // ----- The method's orderings -----

  ghost predicate DistinctLabels(m: Body) {
    forall i, j :: 0 <= i < j < |m.subs| ==> m.subs[i].name != m.subs[j].name
  }

  predicate Labelled(m: Body, l: string) {
    exists i :: 0 <= i < |m.subs| && m.subs[i].name == l
  }

  function Pairs(m: Body): set<(string, string)> {
    set l, r | l in m.orderings && r in m.orderings[l] :: (l, r)
  }

  /** Every ordering is between two of the method's subtasks. */
  ghost predicate OrderingsKnown(m: Body) {
    forall p <- Pairs(m) :: Labelled(m, p.0) && Labelled(m, p.1)
  }

  /** The edges of the orderings that are not among `todo`. */
  function EdgesWithout(n: Net, m: Body, todo: set<(string, string)>): set<(nat, nat)> {
    set i: nat, j: nat | 0 <= i < |m.subs| && 0 <= j < |m.subs| && Ordered(m, i, j) &&
        (m.subs[i].name, m.subs[j].name) !in todo
      :: (n.next + i, n.next + j)
  }

  lemma WithoutNone(n: Net, m: Body)
    ensures EdgesWithout(n, m, Pairs(m)) == {} && EdgesWithout(n, m, {}) == OwnEdges(n, m)
  {
  }

  lemma WithoutNext(n: Net, m: Body, todo: set<(string, string)>, i: nat, j: nat)
    requires DistinctLabels(m) && i < |m.subs| && j < |m.subs| && Ordered(m, i, j)
    requires (m.subs[i].name, m.subs[j].name) in todo
    ensures EdgesWithout(n, m, todo - {(m.subs[i].name, m.subs[j].name)}) ==
        EdgesWithout(n, m, todo) + {(n.next + i, n.next + j)}
  {
  }

  // ----- Step by step -----

  lemma TaggedTasks(f: Frame, g: Frame, cells: map<nat, Cell>, i: nat, c: Cell, tags: Tags)
    requires i !in cells && f.tags.Keys <= cells.Keys
    requires g.tags == if tags == Tags({}, None) then f.tags else f.tags[i := tags]
    ensures TasksOf(g, cells[i := c]) == TasksOf(f, cells)[i := Task(c.head, c.args, tags.checks, tags.establishes)]
  {
  }

  lemma TaggedFrame(v: Listed, head: string, args: Args, tags: Tags)
    requires FrameOk(v.frame, v.cells.Keys)
    ensures var w := Tagged(Appended(v, head, args), v.frame.next, tags); FrameOk(w.frame, w.cells.Keys)
  {
    AppendedFrame(v, head, args);
  }

  lemma FrameFresh(f: Frame, keys: set<nat>)
    requires FrameOk(f, keys)
    ensures f.next !in keys && f.tags.Keys <= keys
  {
  }

  lemma TaggedMeans(v: Listed, head: string, args: Args, tags: Tags)
    requires WellFormed(v)
    ensures var w := Tagged(Appended(v, head, args), v.frame.next, tags);
      WellFormed(w) && Abs(w) == AddTask(Abs(v), Task(head, args, tags.checks, tags.establishes))
  {
    hide FrameOk, Mirrored, TasksOf, EdgesOf;
    TaggedFrame(v, head, args, tags);
    FrameFresh(v.frame, v.cells.Keys);
    AppendedCells(v.cells, v.frame.next, Cell(head, args, [], []));
    var w := Tagged(Appended(v, head, args), v.frame.next, tags);
    TaggedTasks(v.frame, w.frame, v.cells, v.frame.next, Cell(head, args, [], []), tags);
  }

  function WithEdges(n: Net, edges: set<(nat, nat)>): Net {
    n.(edges := n.edges + edges)
  }

  method Link(s: Store, h: nat, a: nat, b: nat)
    requires s.Ok() && h in s.graphs && WellFormed(s.Views()[h]) && a in s.Views()[h].cells && b in s.Views()[h].cells
    modifies s
    ensures s.Ok() && h in s.graphs && WellFormed(s.Views()[h]) && s.Views() == old(s.Views())[h := s.Views()[h]]
    ensures s.Views()[h].cells.Keys == old(s.Views())[h].cells.Keys
    ensures Abs(s.Views()[h]) == WithEdges(Abs(old(s.Views())[h]), {(a, b)})
  {
    hide WellFormed, Abs, Stored, ViewsOf, Deref;
    EdgeAddedMeans(s.Views()[h], a, b);
    s.AddEdge(h, a, b);
  }

  /** A new task, with its tags and an edge to each of `out`. */
  method AddSub(s: Store, h: nat, head: string, args: Args, tags: Tags, out: seq<nat>) returns (tid: nat)
    requires s.Ok() && h in s.graphs && WellFormed(s.Views()[h]) && forall o <- out :: o in s.Views()[h].cells
    modifies s
    ensures s.Ok() && h in s.graphs && WellFormed(s.Views()[h]) && s.Views() == old(s.Views())[h := s.Views()[h]]
    ensures tid == old(s.Views())[h].frame.next
    ensures Abs(s.Views()[h]) ==
        WithEdges(AddTask(Abs(old(s.Views())[h]), Task(head, args, tags.checks, tags.establishes)), EdgesTo(tid, out))
  {
    hide WellFormed, Abs, Stored, ViewsOf, Deref;
    ghost var v := s.Views()[h];
    TaggedMeans(v, head, args, tags);
    tid := s.AddNode(h, head, args);
    s.SetTags(h, tid, tags);
    assert forall o <- out :: o in s.Views()[h].cells;
    LinkAll(s, h, tid, out);
  }

  method LinkAll(s: Store, h: nat, tid: nat, out: seq<nat>)
    requires s.Ok() && h in s.graphs && WellFormed(s.Views()[h]) && tid in s.Views()[h].cells
    requires forall o <- out :: o in s.Views()[h].cells
    modifies s
    ensures s.Ok() && h in s.graphs && WellFormed(s.Views()[h]) && s.Views() == old(s.Views())[h := s.Views()[h]]
    ensures Abs(s.Views()[h]) == WithEdges(Abs(old(s.Views())[h]), EdgesTo(tid, out))
  {
    hide WellFormed, Abs, Stored, ViewsOf, Deref;
    ghost var v := s.Views()[h];
    for j := 0 to |out|
      invariant s.Ok() && h in s.graphs && s.Views() == old(s.Views())[h := s.Views()[h]]
      invariant WellFormed(s.Views()[h]) && s.Views()[h].cells.Keys == v.cells.Keys
      invariant Abs(s.Views()[h]) == WithEdges(Abs(v), EdgesTo(tid, out[..j]))
    {
      Link(s, h, tid, out[j]);
      assert EdgesTo(tid, out[..j + 1]) == EdgesTo(tid, out[..j]) + {(tid, out[j])};
    }
    assert out[..|out|] == out;
  }

  // ----- Decomposing -----

  lemma OutEdges(v: Listed, t: nat)
    requires WellFormed(v) && t in v.cells
    ensures forall o: nat :: o in v.cells[t].outgoing <==> (t, o) in Abs(v).edges
    ensures forall o <- v.cells[t].outgoing :: o in v.cells
    ensures t in Abs(v).tasks && Abs(v).tasks[t].checks == TagsOf(v.frame, t).checks
  {
  }

  lemma TaskKeys(v: Listed)
    ensures Abs(v).tasks.Keys == v.cells.Keys && Abs(v).next == v.frame.next && |Abs(v).checks| == |v.frame.checks|
  {
  }

  lemma CheckedMeans(v: Listed, c: Check)
    requires WellFormed(v)
    ensures WellFormed(Checked(v, c)) && Abs(Checked(v, c)) == Abs(v).(checks := Abs(v).checks + [c])
  {
  }

  /** The position of a label among the subtasks, by a scan from the front. */
  method FindLabel(m: Body, l: string) returns (r: Option<nat>)
    ensures r.Some? ==> r.value < |m.subs| && m.subs[r.value].name == l
    ensures r.None? ==> !Labelled(m, l)
  {
    for i := 0 to |m.subs|
      invariant forall j :: 0 <= j < i ==> m.subs[j].name != l
    {
      if m.subs[i].name == l {
        return Some(i);
      }
    }
    return None;
  }

  /** A task's successors, the checks it carries, and how many checks its network has. */
  method Look(s: Store, g: nat, t: nat) returns (out: seq<nat>, inherited: set<nat>, own: nat)
    requires s.Ok() && g in s.graphs && t in s.Views()[g].cells
    ensures out == s.Views()[g].cells[t].outgoing && inherited == TagsOf(s.Views()[g].frame, t).checks
    ensures own == |s.Views()[g].frame.checks|
  {
    out := s.heap[s.graphs[g].ptrs[t]].outgoing;
    inherited := TagsOf(s.graphs[g].frame, t).checks;
    own := |s.graphs[g].frame.checks|;
  }

  /** The copy without the task, and with the method's own check if it records one. */
  method Start(s: Store, g: nat, t: nat, mode: Mode, m: Body, b: Binding) returns (h: nat)
    requires s.Ok() && g in s.graphs && WellFormed(s.Views()[g]) && t in s.Views()[g].cells
    modifies s
    ensures s.Ok() && h in s.graphs && h !in old(s.graphs) && s.Views() == old(s.Views())[h := s.Views()[h]]
    ensures WellFormed(s.Views()[h]) && t in Abs(old(s.Views())[g]).tasks
    ensures Abs(s.Views()[h]) == Stage(mode, Abs(old(s.Views())[g]), t, m, b, 0, {})
  {
    hide WellFormed, Abs, Stored, ViewsOf, Deref, Removed;
    ghost var v := s.Views()[g];
    TaskKeys(v);
    h := s.Copy(g);
    RemovedMeans(v, t);
    s.RemoveNode(h, t);
    if Records(mode, m) {
      CheckedMeans(s.Views()[h], OwnCheck(m, b));
      s.AddCheck(h, OwnCheck(m, b));
    }
    StageZero(mode, Abs(v), t, m, b);
  }

  lemma StageZero(mode: Mode, n: Net, t: nat, m: Body, b: Binding)
    requires t in n.tasks
    ensures Stage(mode, n, t, m, b, 0, {}) == RemoveTask(n, t).(checks := n.checks + OwnChecks(mode, m, b))
  {
    assert NewTasks(mode, n, t, m, b, 0) == map[];
  }

  lemma StageKeys(mode: Mode, n: Net, t: nat, m: Body, b: Binding, k: nat, edges: set<(nat, nat)>)
    requires t in n.tasks && k <= |m.subs|
    ensures Stage(mode, n, t, m, b, k, edges).next == n.next + k
    ensures forall i: nat ::
      i in Stage(mode, n, t, m, b, k, edges).tasks <==> (i in n.tasks && i != t) || n.next <= i < n.next + k
  {
  }

  /** The subtasks, in order. */
  method AddSubs(s: Store, h: nat, t: nat, mode: Mode, m: Body, b: Binding, out: seq<nat>, inherited: set<nat>,
        own: nat, ghost n: Net)
      returns (added: seq<nat>)
    requires s.Ok() && h in s.graphs && WellFormed(s.Views()[h])
    requires t in n.tasks && inherited == n.tasks[t].checks && own == |n.checks| && (t, t) !in n.edges
    requires forall o: nat :: o in out <==> (t, o) in n.edges
    requires forall o <- out :: o in n.tasks && o != t
    requires Abs(s.Views()[h]) == Stage(mode, n, t, m, b, 0, {})
    modifies s
    ensures s.Ok() && h in s.graphs && WellFormed(s.Views()[h]) && s.Views() == old(s.Views())[h := s.Views()[h]]
    ensures Abs(s.Views()[h]) == Stage(mode, n, t, m, b, |m.subs|, InheritedEdges(n, t, m, |m.subs|))
    ensures added == NewIds(n.next, |m.subs|)
  {
    hide WellFormed, Abs, Stored, ViewsOf, Deref, Stage, InheritedEdges, Tagged, Appended, GroundArgs, Last;
    added := [];
    NoneInherited(n, t, m);
    for k := 0 to |m.subs|
      invariant s.Ok() && h in s.graphs && WellFormed(s.Views()[h]) && s.Views() == old(s.Views())[h := s.Views()[h]]
      invariant Abs(s.Views()[h]) == Stage(mode, n, t, m, b, k, InheritedEdges(n, t, m, k))
      invariant added == NewIds(n.next, k)
    {
      var sub := m.subs[k];
      var tags := if mode == Compiled then Tags({}, None)
                  else Tags(inherited + (if Records(mode, m) then {own} else {}), if Records(mode, m) && sub.name ==
                      PRE_LABEL then Some(own) else None);
      ghost var edges := InheritedEdges(n, t, m, k);
      StageKeys(mode, n, t, m, b, k, edges);
      TaskKeys(s.Views()[h]);
      var tid := AddSub(s, h, sub.head, GroundArgs(sub.args, b), tags, if Last(m, k) then out else []);
      SubStep(mode, n, t, m, b, k, out, tags);
      added := added + [tid];
    }
  }

  lemma NoneInherited(n: Net, t: nat, m: Body)
    ensures InheritedEdges(n, t, m, 0) == {}
  {
  }

  lemma SubStep(mode: Mode, n: Net, t: nat, m: Body, b: Binding, k: nat, out: seq<nat>, tags: Tags)
    requires t in n.tasks && k < |m.subs| && (t, t) !in n.edges && forall o: nat :: o in out <==> (t, o) in n.edges
    requires tags.checks == SubTask(mode, n, t, m, b, n.next + k).checks
    requires tags.establishes == SubTask(mode, n, t, m, b, n.next + k).establishes
    ensures var s := Stage(mode, n, t, m, b, k, InheritedEdges(n, t, m, k));
      WithEdges(AddTask(s, Task(m.subs[k].head, GroundArgs(m.subs[k].args, b), tags.checks, tags.establishes)),
          EdgesTo(n.next + k, if Last(m, k) then out else []))
        == Stage(mode, n, t, m, b, k + 1, InheritedEdges(n, t, m, k + 1))
  {
    hide InheritedEdges, Last;
    StageTask(mode, n, t, m, b, k, InheritedEdges(n, t, m, k));
    InheritedNext(n, t, m, k, out);
    StageMore(mode, n, t, m, b, k + 1, InheritedEdges(n, t, m, k), EdgesTo(n.next + k, if Last(m, k) then out else []));
    assert EdgesTo(n.next + k, []) == {};
  }

  lemma StageMore(mode: Mode, n: Net, t: nat, m: Body, b: Binding, k: nat, edges: set<(nat, nat)>,
        more: set<(nat, nat)>)
    requires t in n.tasks && k <= |m.subs|
    ensures WithEdges(Stage(mode, n, t, m, b, k, edges), more) == Stage(mode, n, t, m, b, k, edges + more)
  {
  }

  /** One ordering, by its labels. */
  method OrderOne(s: Store, h: nat, t: nat, mode: Mode, m: Body, b: Binding, added: seq<nat>,
                  ghost todo: set<(string, string)>, p: (string, string), ghost n: Net) returns (ok: bool)
    requires s.Ok() && h in s.graphs && WellFormed(s.Views()[h]) && p in todo && p in Pairs(m)
    requires t in n.tasks && DistinctLabels(m) && added == NewIds(n.next, |m.subs|)
    requires Abs(s.Views()[h]) ==
        Stage(mode, n, t, m, b, |m.subs|, InheritedEdges(n, t, m, |m.subs|) + EdgesWithout(n, m, todo))
    modifies s
    ensures s.Ok() && h in s.graphs && WellFormed(s.Views()[h]) && s.Views() == old(s.Views())[h := s.Views()[h]]
    ensures ok <==> Labelled(m, p.0) && Labelled(m, p.1)
    ensures ok ==> Abs(s.Views()[h]) == Stage(mode, n, t, m, b, |m.subs|, InheritedEdges(n, t, m, |m.subs|) +
        EdgesWithout(n, m, todo - {p}))
  {
    hide WellFormed, Abs, Stored, ViewsOf, Deref, Stage, InheritedEdges, EdgesWithout;
    var i := FindLabel(m, p.0);
    var j := FindLabel(m, p.1);
    if i.None? || j.None? {
      return false;
    }
    ghost var inh := InheritedEdges(n, t, m, |m.subs|);
    ghost var e := (n.next + i.value, n.next + j.value);
    StageKeys(mode, n, t, m, b, |m.subs|, inh + EdgesWithout(n, m, todo));
    TaskKeys(s.Views()[h]);
    Link(s, h, added[i.value], added[j.value]);
    WithoutNext(n, m, todo, i.value, j.value);
    StageMore(mode, n, t, m, b, |m.subs|, inh + EdgesWithout(n, m, todo), {e});
    assert inh + EdgesWithout(n, m, todo - {p}) == inh + EdgesWithout(n, m, todo) + {e};
    return true;
  }

  /** The method's own orderings, in any order. */
  method Order(s: Store, h: nat, t: nat, mode: Mode, m: Body, b: Binding, added: seq<nat>, ghost n: Net)
      returns (ok: bool)
    requires s.Ok() && h in s.graphs && WellFormed(s.Views()[h])
    requires t in n.tasks && DistinctLabels(m) && added == NewIds(n.next, |m.subs|)
    requires Abs(s.Views()[h]) == Stage(mode, n, t, m, b, |m.subs|, InheritedEdges(n, t, m, |m.subs|))
    modifies s
    ensures s.Ok() && h in s.graphs && WellFormed(s.Views()[h]) && s.Views() == old(s.Views())[h := s.Views()[h]]
    ensures ok <==> OrderingsKnown(m)
    ensures ok ==> Abs(s.Views()[h]) == Ground(mode, n, t, m, b)
  {
    hide WellFormed, Abs, Stored, ViewsOf, Deref, Stage, InheritedEdges, EdgeAdded, EdgesWithout, Ground;
    var todo := Pairs(m);
    ghost var inh := InheritedEdges(n, t, m, |m.subs|);
    WithoutNone(n, m);
    assert inh + {} == inh;
    StageDone(mode, n, t, m, b);
    while todo != {}
      invariant s.Ok() && h in s.graphs && WellFormed(s.Views()[h]) && s.Views() == old(s.Views())[h := s.Views()[h]]
      invariant todo <= Pairs(m) && forall p <- Pairs(m) - todo :: Labelled(m, p.0) && Labelled(m, p.1)
      invariant Abs(s.Views()[h]) == Stage(mode, n, t, m, b, |m.subs|, inh + EdgesWithout(n, m, todo))
      decreases todo
    {
      var p :| p in todo;
      ok := OrderOne(s, h, t, mode, m, b, added, todo, p, n);
      if !ok {
        return;
      }
      todo := todo - {p};
    }
    return true;
  }

  /** The network `w` is `v` with `t` decomposed. */
  ghost predicate IsGround(v: Listed, w: Listed, t: nat, mode: Mode, m: Body, b: Binding) {
    t in Abs(v).tasks && Abs(w) == Ground(mode, Abs(v), t, m, b)
  }

  /** A fresh copy of network `g` in which task `t` is decomposed by `m` under `b`. The ids given to
      the subtasks are returned in order; an ordering that names no subtask stops it. */
  method Decompose(s: Store, g: nat, t: nat, mode: Mode, m: Body, b: Binding)
      returns (h: nat, added: seq<nat>, ok: bool)
    requires s.Ok() && g in s.graphs && WellFormed(s.Views()[g]) && t in s.Views()[g].cells
    requires t !in s.Views()[g].cells[t].outgoing
    requires DistinctLabels(m)
    modifies s
    ensures s.Ok() && h in s.graphs && h !in old(s.graphs) && s.Views() == old(s.Views())[h := s.Views()[h]]
    ensures WellFormed(s.Views()[h])
    ensures ok <==> OrderingsKnown(m)
    ensures ok ==> IsGround(old(s.Views())[g], s.Views()[h], t, mode, m, b)
    ensures added == NewIds(old(s.Views())[g].frame.next, |m.subs|)
  {
    hide WellFormed, Abs, Stored, ViewsOf, Deref, Stage, Ground, RemoveTask, NewTasks, SubTask;
    ghost var v := s.Views()[g];
    OutEdges(v, t);
    TaskKeys(v);
    var out, inherited, own := Look(s, g, t);
    h := Start(s, g, t, mode, m, b);
    added := AddSubs(s, h, t, mode, m, b, out, inherited, own, Abs(v));
    ok := Order(s, h, t, mode, m, b, added, Abs(v));
  }
}
