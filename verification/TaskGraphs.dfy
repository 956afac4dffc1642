/** The task network as it is stored (lib/typedefs.h, `TaskGraph`): tasks in ascending id order with
    their edge lists, each held through a shared pointer and copied only when written. All the
    networks alive at once live in one `Store`, where a pointer is a number and a cell is what it
    points to; a pointer's use count is above one when some other slot holds it too. */
module TaskGraphs {
  import opened Basics
  import opened Networks

  /** A stored task. */
  datatype Cell = Cell(head: string, args: Args, incoming: seq<nat>, outgoing: seq<nat>)

  datatype Tags = Tags(checks: set<nat>, establishes: Option<nat>)

  /** What a network keeps beside its tasks. The tasks are a vector of id and pointer, given here by
      the ids in order and the pointer of each; `tags` is kept only for tasks that have any. */
  datatype Frame = Frame(ids: seq<nat>, next: nat, tags: map<nat, Tags>, checks: seq<Check>, step: nat)

  /** A network by value, and as stored. */
  datatype Listed = Listed(frame: Frame, cells: map<nat, Cell>)
  datatype Graph = Graph(frame: Frame, ptrs: map<nat, nat>)

  // ----- Values -----

  /** The ids ascend below the counter, and are those of the tasks. */
  ghost predicate FrameOk(f: Frame, keys: set<nat>) {
    && Ascending(f.ids) && (forall i :: i in f.ids <==> i in keys) && (forall i <- keys :: i < f.next)
    && f.tags.Keys <= keys
  }

  /** Edges join tasks, and each is in both its lists. */
  ghost predicate Mirrored(cells: map<nat, Cell>) {
    && (forall i <- cells :: forall o <- cells[i].outgoing :: o in cells && i in cells[o].incoming)
    && (forall o <- cells :: forall i <- cells[o].incoming :: i in cells && o in cells[i].outgoing)
  }

  ghost predicate WellFormed(v: Listed) {
    FrameOk(v.frame, v.cells.Keys) && Mirrored(v.cells)
  }

  function TagsOf(f: Frame, i: nat): Tags {
    if i in f.tags then f.tags[i] else Tags({}, None)
  }

  function TaskOf(f: Frame, c: Cell, i: nat): Task {
    Task(c.head, c.args, TagsOf(f, i).checks, TagsOf(f, i).establishes)
  }

  function EdgesOf(cells: map<nat, Cell>): set<(nat, nat)> {
    set i, o | i in cells && o in cells[i].outgoing :: (i, o)
  }

  function TasksOf(f: Frame, cells: map<nat, Cell>): map<nat, Task> {
    map i | i in cells :: TaskOf(f, cells[i], i)
  }

  /** The network a stored one stands for. */
  function Abs(v: Listed): Net {
    Net(TasksOf(v.frame, v.cells), EdgesOf(v.cells), v.frame.next, v.frame.checks, v.frame.step)
  }

  function RemoveAll(s: seq<nat>, x: nat): (r: seq<nat>)
    ensures forall y :: y in r <==> y in s && y != x
  {
    if s == [] then [] else (if s[0] == x then [] else [s[0]]) + RemoveAll(s[1..], x)
  }

  // ----- Changes by value -----

  function Appended(v: Listed, head: string, args: Args): Listed {
    var f := v.frame;
    Listed(f.(ids := f.ids + [f.next], next := f.next + 1), v.cells[f.next := Cell(head, args, [], [])])
  }

  function Tagged(v: Listed, i: nat, tags: Tags): Listed {
    if tags == Tags({}, None) then v else v.(frame := v.frame.(tags := v.frame.tags[i := tags]))
  }

  function OutAdded(cells: map<nat, Cell>, a: nat, b: nat): map<nat, Cell>
    requires a in cells
  {
    cells[a := cells[a].(outgoing := cells[a].outgoing + [b])]
  }

  function InAdded(cells: map<nat, Cell>, a: nat, b: nat): map<nat, Cell>
    requires b in cells
  {
    cells[b := cells[b].(incoming := cells[b].incoming + [a])]
  }

  function EdgeAdded(v: Listed, a: nat, b: nat): Listed
    requires a in v.cells && b in v.cells
  {
    v.(cells := InAdded(OutAdded(v.cells, a, b), a, b))
  }

  function InCut(c: Cell, i: nat): Cell {
    c.(incoming := RemoveAll(c.incoming, i))
  }

  function OutCut(c: Cell, i: nat): Cell {
    c.(outgoing := RemoveAll(c.outgoing, i))
  }

  /** Every task in `outs` cut from `i` on its incoming side, and every one in `ins` on the other. */
  function Unlinked(cells: map<nat, Cell>, i: nat, outs: set<nat>, ins: set<nat>): map<nat, Cell> {
    map x | x in cells ::
      var c := if x in outs then InCut(cells[x], i) else cells[x];
      if x in ins then OutCut(c, i) else c
  }

  function Dropped(v: Listed, i: nat): Listed {
    Listed(v.frame.(ids := RemoveAll(v.frame.ids, i), tags := v.frame.tags - {i}), v.cells - {i})
  }

  function Elements(s: seq<nat>): set<nat> {
    set x | x in s
  }

  function Removed(v: Listed, i: nat): Listed
    requires i in v.cells
  {
    var c := v.cells[i];
    Dropped(v.(cells := Unlinked(v.cells, i, Elements(c.outgoing), Elements(c.incoming))), i)
  }

  // ----- What the changes mean -----

  function AddTask(n: Net, x: Task): Net {
    n.(tasks := n.tasks[n.next := x], next := n.next + 1)
  }

  lemma {:induction false} RemoveAllAscending(ids: seq<nat>, x: nat)
    requires Ascending(ids)
    ensures Ascending(RemoveAll(ids, x))
  {
    if ids != [] {
      RemoveAllAscending(ids[1..], x);
      var r := RemoveAll(ids[1..], x);
      forall j | 0 <= j < |r|
        ensures ids[0] < r[j]
      {
        assert r[j] in ids[1..];
      }
    }
  }

  lemma AppendedFrame(v: Listed, head: string, args: Args)
    requires FrameOk(v.frame, v.cells.Keys)
    ensures FrameOk(Appended(v, head, args).frame, Appended(v, head, args).cells.Keys)
  {
    assert forall j :: 0 <= j < |v.frame.ids| ==> v.frame.ids[j] in v.frame.ids;
  }

  lemma AppendedMeans(v: Listed, head: string, args: Args)
    requires WellFormed(v)
    ensures WellFormed(Appended(v, head, args))
    ensures Abs(Appended(v, head, args)) == AddTask(Abs(v), Task(head, args, {}, None))
  {
    AppendedFrame(v, head, args);
    AppendedCells(v.cells, v.frame.next, Cell(head, args, [], []));
    AppendedTasks(v, head, args);
  }

  lemma AppendedTasks(v: Listed, head: string, args: Args)
    requires FrameOk(v.frame, v.cells.Keys)
    ensures var w := Appended(v, head, args);
      TasksOf(w.frame, w.cells) == TasksOf(v.frame, v.cells)[v.frame.next := Task(head, args, {}, None)]
  {
    assert v.frame.next !in v.frame.tags;
  }

  lemma AppendedCells(cells: map<nat, Cell>, i: nat, c: Cell)
    requires Mirrored(cells) && i !in cells && c.incoming == [] && c.outgoing == []
    ensures Mirrored(cells[i := c]) && EdgesOf(cells[i := c]) == EdgesOf(cells)
  {
  }

  /** Cells with one more edge. */
  ghost predicate OneMore(x: map<nat, Cell>, y: map<nat, Cell>, a: nat, b: nat) {
    && x.Keys == y.Keys && a in x && b in x
    && (forall i <- x :: y[i].head == x[i].head && y[i].args == x[i].args)
    && (forall i <- x, o: nat :: o in y[i].outgoing <==> o in x[i].outgoing || (i == a && o == b))
    && (forall i <- x, o: nat :: o in y[i].incoming <==> o in x[i].incoming || (i == b && o == a))
  }

  lemma EdgeAddedOneMore(x: map<nat, Cell>, a: nat, b: nat)
    requires a in x && b in x
    ensures OneMore(x, InAdded(OutAdded(x, a, b), a, b), a, b)
  {
  }

  lemma OneMoreMirrored(x: map<nat, Cell>, y: map<nat, Cell>, a: nat, b: nat)
    requires Mirrored(x) && OneMore(x, y, a, b)
    ensures Mirrored(y)
  {
  }

  lemma OneMoreEdges(x: map<nat, Cell>, y: map<nat, Cell>, a: nat, b: nat)
    requires OneMore(x, y, a, b)
    ensures EdgesOf(y) == EdgesOf(x) + {(a, b)}
  {
  }

  lemma EdgeAddedMeans(v: Listed, a: nat, b: nat)
    requires WellFormed(v) && a in v.cells && b in v.cells
    ensures WellFormed(EdgeAdded(v, a, b))
    ensures Abs(EdgeAdded(v, a, b)) == Abs(v).(edges := Abs(v).edges + {(a, b)})
  {
    var y := EdgeAdded(v, a, b).cells;
    EdgeAddedOneMore(v.cells, a, b);
    OneMoreMirrored(v.cells, y, a, b);
    OneMoreEdges(v.cells, y, a, b);
    OneMoreTasks(v.frame, v.cells, y, a, b);
  }

  lemma OneMoreTasks(f: Frame, x: map<nat, Cell>, y: map<nat, Cell>, a: nat, b: nat)
    requires OneMore(x, y, a, b)
    ensures TasksOf(f, y) == TasksOf(f, x) && (FrameOk(f, x.Keys) ==> FrameOk(f, y.Keys))
  {
  }

  /** Cells without the task `i`. */
  ghost predicate OneLess(x: map<nat, Cell>, y: map<nat, Cell>, i: nat) {
    && y.Keys == x.Keys - {i}
    && (forall k <- y :: y[k].head == x[k].head && y[k].args == x[k].args)
    && (forall k <- y, o: nat :: o in y[k].outgoing <==> o in x[k].outgoing && o != i)
    && (forall k <- y, o: nat :: o in y[k].incoming <==> o in x[k].incoming && o != i)
  }

  lemma RemovedOneLess(v: Listed, i: nat)
    requires Mirrored(v.cells) && i in v.cells
    ensures OneLess(v.cells, Removed(v, i).cells, i)
  {
    var y := Removed(v, i).cells;
    var outs, ins := Elements(v.cells[i].outgoing), Elements(v.cells[i].incoming);
    forall k | k in y
      ensures forall o: nat :: o in y[k].outgoing <==> o in v.cells[k].outgoing && o != i
      ensures forall o: nat :: o in y[k].incoming <==> o in v.cells[k].incoming && o != i
    {
      assert k !in ins ==> i !in v.cells[k].outgoing;
      assert k !in outs ==> i !in v.cells[k].incoming;
    }
  }

  lemma RemovedIs(v: Listed, i: nat)
    requires i in v.cells
    ensures Removed(v, i) ==
            Dropped(WithCells(v, Unlinked(v.cells, i, Elements(v.cells[i].outgoing), Elements(v.cells[i].incoming))), i)
  {
  }

  lemma NeighboursThere(cells: map<nat, Cell>, i: nat)
    requires Mirrored(cells) && i in cells
    ensures (forall o <- cells[i].outgoing :: o in cells) && forall o <- cells[i].incoming :: o in cells
  {
  }

  lemma OneLessMirrored(x: map<nat, Cell>, y: map<nat, Cell>, i: nat)
    requires Mirrored(x) && OneLess(x, y, i)
    ensures Mirrored(y)
  {
  }

  lemma OneLessEdges(v: Listed, y: map<nat, Cell>, i: nat)
    requires OneLess(v.cells, y, i)
    ensures EdgesOf(y) == RemoveTask(Abs(v), i).edges
  {
  }

  lemma RemovedMeans(v: Listed, i: nat)
    requires WellFormed(v) && i in v.cells
    ensures WellFormed(Removed(v, i))
    ensures Abs(Removed(v, i)) == RemoveTask(Abs(v), i)
  {
    var w := Removed(v, i);
    RemovedOneLess(v, i);
    OneLessMirrored(v.cells, w.cells, i);
    OneLessEdges(v, w.cells, i);
    OneLessFrame(v, i);
  }

  lemma OneLessFrame(v: Listed, i: nat)
    requires FrameOk(v.frame, v.cells.Keys) && i in v.cells && OneLess(v.cells, Removed(v, i).cells, i)
    ensures var w := Removed(v, i);
      FrameOk(w.frame, w.cells.Keys) && TasksOf(w.frame, w.cells) == TasksOf(v.frame, v.cells) - {i}
  {
    RemoveAllAscending(v.frame.ids, i);
    OneLessTasks(v.frame, Removed(v, i).frame, v.cells, Removed(v, i).cells, i);
  }

  lemma OneLessTasks(f: Frame, f': Frame, x: map<nat, Cell>, y: map<nat, Cell>, i: nat)
    requires OneLess(x, y, i) && f'.tags == f.tags - {i}
    ensures TasksOf(f', y) == TasksOf(f, x) - {i}
  {
  }

  lemma {:induction false} RemoveAllAgain(s: seq<nat>, x: nat)
    requires x !in s
    ensures RemoveAll(s, x) == s
  {
    if s != [] {
      RemoveAllAgain(s[1..], x);
    }
  }

  // ----- Storage -----

  /** The value of a graph over a heap. */
  function Deref(heap: map<nat, Cell>, g: Graph): Listed
    requires forall i <- g.ptrs :: g.ptrs[i] in heap
  {
    Listed(g.frame, map i | i in g.ptrs :: heap[g.ptrs[i]])
  }

  /** Is the pointer of task `i` of graph `g` held by another slot as well? */
  predicate Shared(graphs: map<nat, Graph>, g: nat, i: nat)
    requires g in graphs && i in graphs[g].ptrs
  {
    exists h, j | h in graphs && j in graphs[h].ptrs :: (h != g || j != i) && graphs[h].ptrs[j] == graphs[g].ptrs[i]
  }

  ghost predicate Stored(heap: map<nat, Cell>, graphs: map<nat, Graph>, fresh_: nat) {
    && (forall g <- graphs :: forall i <- graphs[g].ptrs :: graphs[g].ptrs[i] in heap)
    && (forall p <- heap :: p < fresh_)
  }

  ghost function ViewsOf(heap: map<nat, Cell>, graphs: map<nat, Graph>): map<nat, Listed>
    requires forall g <- graphs :: forall i <- graphs[g].ptrs :: graphs[g].ptrs[i] in heap
  {
    map g | g in graphs :: Deref(heap, graphs[g])
  }

  function Repoint(graphs: map<nat, Graph>, g: nat, i: nat, p: nat): map<nat, Graph>
    requires g in graphs
  {
    graphs[g := graphs[g].(ptrs := graphs[g].ptrs[i := p])]
  }

  function SetCell(v: Listed, i: nat, c: Cell): Listed {
    v.(cells := v.cells[i := c])
  }

  /** Pointing a slot at a fresh copy changes no value, and leaves the slot alone on its cell. */
  lemma DetachSame(heap: map<nat, Cell>, graphs: map<nat, Graph>, fresh_: nat, g: nat, i: nat)
    requires Stored(heap, graphs, fresh_) && g in graphs && i in graphs[g].ptrs
    ensures var heap' := heap[fresh_ := heap[graphs[g].ptrs[i]]];
      var graphs' := Repoint(graphs, g, i, fresh_);
      Stored(heap', graphs', fresh_ + 1) && ViewsOf(heap', graphs') == ViewsOf(heap, graphs) && !Shared(graphs', g, i)
  {
    var heap' := heap[fresh_ := heap[graphs[g].ptrs[i]]];
    var graphs' := Repoint(graphs, g, i, fresh_);
    assert fresh_ !in heap;
    forall h, j | h in graphs' && j in graphs'[h].ptrs
      ensures graphs'[h].ptrs[j] in heap' && j in graphs[h].ptrs && heap'[graphs'[h].ptrs[j]] == heap[graphs[h].ptrs[j]]
      ensures graphs'[h].ptrs[j] == fresh_ <==> h == g && j == i
    {
      assert graphs[h].ptrs[j] in heap;
    }
    forall h | h in graphs
      ensures Deref(heap', graphs'[h]) == Deref(heap, graphs[h])
    {
      assert graphs'[h].ptrs.Keys == graphs[h].ptrs.Keys;
    }
  }

  /** Writing through a pointer no other slot holds changes that task of that network only. */
  lemma WriteOne(heap: map<nat, Cell>, graphs: map<nat, Graph>, fresh_: nat, g: nat, i: nat, c: Cell)
    requires Stored(heap, graphs, fresh_) && g in graphs && i in graphs[g].ptrs && !Shared(graphs, g, i)
    ensures var heap' := heap[graphs[g].ptrs[i] := c];
      Stored(heap', graphs, fresh_) &&
      ViewsOf(heap', graphs) == ViewsOf(heap, graphs)[g := SetCell(ViewsOf(heap, graphs)[g], i, c)]
  {
    var heap' := heap[graphs[g].ptrs[i] := c];
    forall h, j | h in graphs && j in graphs[h].ptrs && (h != g || j != i)
      ensures heap'[graphs[h].ptrs[j]] == heap[graphs[h].ptrs[j]]
    {
    }
    forall h | h in graphs
      ensures Deref(heap', graphs[h]) == if h == g then SetCell(Deref(heap, graphs[h]), i, c)
          else Deref(heap, graphs[h])
    {
    }
  }

  /** A cell no slot points to changes no value. */
  lemma FreshCell(heap: map<nat, Cell>, graphs: map<nat, Graph>, fresh_: nat, c: Cell)
    requires Stored(heap, graphs, fresh_)
    ensures Stored(heap[fresh_ := c], graphs, fresh_ + 1) && ViewsOf(heap[fresh_ := c], graphs) == ViewsOf(heap, graphs)
  {
    assert fresh_ !in heap;
    forall h | h in graphs
      ensures Deref(heap[fresh_ := c], graphs[h]) == Deref(heap, graphs[h])
    {
      assert forall j <- graphs[h].ptrs :: graphs[h].ptrs[j] in heap;
    }
  }

  /** One more task in a graph, at a pointer. */
  function Pushed(g: Graph, p: nat): Graph {
    var id := g.frame.next;
    Graph(g.frame.(ids := g.frame.ids + [id], next := id + 1), g.ptrs[id := p])
  }

  lemma FrameOf(heap: map<nat, Cell>, graphs: map<nat, Graph>, fresh_: nat, g: nat)
    requires Stored(heap, graphs, fresh_) && g in graphs
    ensures ViewsOf(heap, graphs)[g].frame == graphs[g].frame
  {
  }

  lemma AppendStored(heap: map<nat, Cell>, graphs: map<nat, Graph>, fresh_: nat, g: nat, head: string, args: Args)
    requires Stored(heap, graphs, fresh_) && g in graphs
    ensures var heap' := heap[fresh_ := Cell(head, args, [], [])];
      var graphs' := graphs[g := Pushed(graphs[g], fresh_)];
      && Stored(heap', graphs', fresh_ + 1)
      && ViewsOf(heap', graphs') == ViewsOf(heap, graphs)[g := Appended(ViewsOf(heap, graphs)[g], head, args)]
  {
    var heap', p := heap[fresh_ := Cell(head, args, [], [])], Pushed(graphs[g], fresh_);
    FreshCell(heap, graphs, fresh_, Cell(head, args, [], []));
    assert Deref(heap', graphs[g]) == Deref(heap, graphs[g]) by {
      assert ViewsOf(heap', graphs)[g] == ViewsOf(heap, graphs)[g];
    }
    PushedMeans(heap', graphs[g], fresh_, head, args);
    Replaced(heap', graphs, fresh_ + 1, g, p);
  }

  lemma PushedMeans(heap: map<nat, Cell>, g: Graph, p: nat, head: string, args: Args)
    requires (forall i <- g.ptrs :: g.ptrs[i] in heap) && p in heap && heap[p] == Cell(head, args, [], [])
    ensures forall i <- Pushed(g, p).ptrs :: Pushed(g, p).ptrs[i] in heap
    ensures Deref(heap, Pushed(g, p)) == Appended(Deref(heap, g), head, args)
  {
    assert Deref(heap, Pushed(g, p)).cells == Appended(Deref(heap, g), head, args).cells;
  }

  function Emptied(g: Graph, i: nat): Graph {
    Graph(g.frame.(ids := RemoveAll(g.frame.ids, i), tags := g.frame.tags - {i}), g.ptrs - {i})
  }

  lemma EmptiedMeans(heap: map<nat, Cell>, g: Graph, i: nat)
    requires forall j <- g.ptrs :: g.ptrs[j] in heap
    ensures forall j <- Emptied(g, i).ptrs :: Emptied(g, i).ptrs[j] in heap
    ensures Deref(heap, Emptied(g, i)) == Dropped(Deref(heap, g), i)
  {
    hide RemoveAll;
    assert Deref(heap, Emptied(g, i)).cells == Deref(heap, g).cells - {i};
  }

  /** Changing one network's slots changes no other network. */
  lemma Replaced(heap: map<nat, Cell>, graphs: map<nat, Graph>, fresh_: nat, g: nat, gr: Graph)
    requires Stored(heap, graphs, fresh_) && g in graphs && forall j <- gr.ptrs :: gr.ptrs[j] in heap
    ensures Stored(heap, graphs[g := gr], fresh_)
    ensures ViewsOf(heap, graphs[g := gr]) == ViewsOf(heap, graphs)[g := Deref(heap, gr)]
  {
    hide Deref;
  }

  class Store {
    var heap: map<nat, Cell>
    var graphs: map<nat, Graph>
    var nextPtr: nat
    var nextGraph: nat

    ghost predicate Ok()
      reads this
    {
      Stored(heap, graphs, nextPtr) && forall g <- graphs :: g < nextGraph
    }

    ghost function Views(): (v: map<nat, Listed>)
      reads this
      requires Ok()
      ensures v.Keys == graphs.Keys
    {
      ViewsOf(heap, graphs)
    }

    /** A copy of a network: it shares every task. */
    method Copy(g: nat) returns (h: nat)
      requires Ok() && g in graphs
      modifies this
      ensures Ok() && h !in old(graphs) && h in graphs && Views() == old(Views())[h := old(Views())[g]]
    {
      h := nextGraph;
      nextGraph := nextGraph + 1;
      graphs := graphs[h := graphs[g]];
    }

    /** The one way to get a task to write to. */
    method Detach(g: nat, i: nat)
      requires Ok() && g in graphs && i in graphs[g].ptrs
      modifies this
      ensures Ok() && g in graphs && i in graphs[g].ptrs && Views() == old(Views()) && !Shared(graphs, g, i)
    {
      if Shared(graphs, g, i) {
        DetachSame(heap, graphs, nextPtr, g, i);
        heap := heap[nextPtr := heap[graphs[g].ptrs[i]]];
        graphs := Repoint(graphs, g, i, nextPtr);
        nextPtr := nextPtr + 1;
      }
    }

    /** Detaches a task, and then writes to it. */
    method Write(g: nat, i: nat, c: Cell)
      requires Ok() && g in graphs && i in graphs[g].ptrs
      modifies this
      ensures Ok() && g in graphs && Views() == old(Views())[g := SetCell(old(Views())[g], i, c)]
    {
      Detach(g, i);
      WriteOne(heap, graphs, nextPtr, g, i, c);
      heap := heap[graphs[g].ptrs[i] := c];
    }

    method AddNode(g: nat, head: string, args: Args) returns (id: nat)
      requires Ok() && g in graphs
      modifies this
      ensures Ok() && g in graphs && id == old(Views())[g].frame.next
      ensures Views() == old(Views())[g := Appended(old(Views())[g], head, args)]
    {
      hide Shared, ViewsOf, Deref, Appended;
      var gr := graphs[g];
      id := gr.frame.next;
      AppendStored(heap, graphs, nextPtr, g, head, args);
      FrameOf(heap, graphs, nextPtr, g);
      heap := heap[nextPtr := Cell(head, args, [], [])];
      graphs := graphs[g := Pushed(gr, nextPtr)];
      nextPtr := nextPtr + 1;
    }

    method SetTags(g: nat, i: nat, tags: Tags)
      requires Ok() && g in graphs
      modifies this
      ensures Ok() && g in graphs && Views() == old(Views())[g := Tagged(old(Views())[g], i, tags)]
    {
      if tags != Tags({}, None) {
        var gr := graphs[g];
        graphs := graphs[g := gr.(frame := gr.frame.(tags := gr.frame.tags[i := tags]))];
      }
    }

    method AddCheck(g: nat, c: Check)
      requires Ok() && g in graphs
      modifies this
      ensures Ok() && g in graphs && Views() == old(Views())[g := Checked(old(Views())[g], c)]
    {
      var gr := graphs[g];
      graphs := graphs[g := gr.(frame := gr.frame.(checks := gr.frame.checks + [c]))];
    }

    method AddEdge(g: nat, a: nat, b: nat)
      requires Ok() && g in graphs && a in Views()[g].cells && b in Views()[g].cells
      modifies this
      ensures Ok() && g in graphs && Views() == old(Views())[g := EdgeAdded(old(Views())[g], a, b)]
    {
      var c := heap[graphs[g].ptrs[a]];
      Write(g, a, c.(outgoing := c.outgoing + [b]));
      assert b in Views()[g].cells;
      c := heap[graphs[g].ptrs[b]];
      Write(g, b, c.(incoming := c.incoming + [a]));
    }

    /** Takes a task out, its edges unlinked at their other ends first. */
    method RemoveNode(g: nat, i: nat)
      requires Ok() && g in graphs && WellFormed(Views()[g]) && i in Views()[g].cells
      modifies this
      ensures Ok() && g in graphs && Views() == old(Views())[g := Removed(old(Views())[g], i)]
    {
      hide RemoveAll, Unlinked, Dropped, Stored, Mirrored, FrameOk, Removed, WithCells, Elements, ViewsOf, Deref;
      ghost var v := Views()[g];
      ghost var all := Views();
      var node := At(g, i);
      NeighboursThere(v.cells, i);
      RemovedIs(v, i);
      CutSuccessors(g, i, node.outgoing);
      assert Views()[g] == WithCells(v, Unlinked(v.cells, i, Elements(node.outgoing), {}));
      CutPredecessors(g, i, Elements(node.outgoing), node.incoming, v);
      Erase(g, i);
      assert Views() == all[g := Removed(v, i)];
    }

    /** The task as it is now. */
    method At(g: nat, i: nat) returns (c: Cell)
      requires Ok() && g in graphs && i in Views()[g].cells
      ensures c == Views()[g].cells[i]
    {
      c := heap[graphs[g].ptrs[i]];
    }

    method CutSuccessors(g: nat, i: nat, outs: seq<nat>)
      requires Ok() && g in graphs && forall o <- outs :: o in Views()[g].cells
      modifies this
      ensures Ok() && g in graphs
      ensures Views() ==
          old(Views())[g := WithCells(old(Views())[g], Unlinked(old(Views())[g].cells, i, Elements(outs), {}))]
    {
      ghost var v := Views()[g];
      UnlinkedNone(v.cells, i);
      for j := 0 to |outs|
        invariant Ok() && g in graphs
        invariant Views() == old(Views())[g := WithCells(v, Unlinked(v.cells, i, Elements(outs[..j]), {}))]
      {
        UnlinkOut(v.cells, i, outs, j);
        assert outs[j] in Views()[g].cells;
        var c := heap[graphs[g].ptrs[outs[j]]];
        Write(g, outs[j], InCut(c, i));
      }
      assert outs[..|outs|] == outs;
    }

    method CutPredecessors(g: nat, i: nat, ghost outs: set<nat>, ins: seq<nat>, ghost v: Listed)
      requires Ok() && g in graphs && (forall o <- ins :: o in v.cells)
      requires Views()[g] == WithCells(v, Unlinked(v.cells, i, outs, {}))
      modifies this
      ensures Ok() && g in graphs
      ensures Views() == old(Views())[g := WithCells(v, Unlinked(v.cells, i, outs, Elements(ins)))]
    {
      assert Elements([]) == {};
      for j := 0 to |ins|
        invariant Ok() && g in graphs
        invariant Views() == old(Views())[g := WithCells(v, Unlinked(v.cells, i, outs, Elements(ins[..j])))]
      {
        UnlinkIn(v.cells, i, outs, ins, j);
        assert ins[j] in Views()[g].cells;
        var c := heap[graphs[g].ptrs[ins[j]]];
        Write(g, ins[j], OutCut(c, i));
      }
      assert ins[..|ins|] == ins;
    }

    method Erase(g: nat, i: nat)
      requires Ok() && g in graphs
      modifies this
      ensures Ok() && g in graphs && Views() == old(Views())[g := Dropped(old(Views())[g], i)]
    {
      hide RemoveAll, Emptied, Deref;
      EmptiedMeans(heap, graphs[g], i);
      Replaced(heap, graphs, nextPtr, g, Emptied(graphs[g], i));
      graphs := graphs[g := Emptied(graphs[g], i)];
    }
  }

  function Checked(v: Listed, c: Check): Listed {
    v.(frame := v.frame.(checks := v.frame.checks + [c]))
  }

  function WithCells(v: Listed, cells: map<nat, Cell>): Listed {
    v.(cells := cells)
  }

  lemma UnlinkedNone(cells: map<nat, Cell>, i: nat)
    ensures Unlinked(cells, i, Elements([]), {}) == cells
  {
  }

  lemma UnlinkOut(cells: map<nat, Cell>, i: nat, outs: seq<nat>, j: nat)
    requires j < |outs| && outs[j] in cells
    ensures var u := Unlinked(cells, i, Elements(outs[..j]), {});
      outs[j] in u && Unlinked(cells, i, Elements(outs[..j + 1]), {}) == u[outs[j] := InCut(u[outs[j]], i)]
  {
    assert Elements(outs[..j + 1]) == Elements(outs[..j]) + {outs[j]};
    RemoveAllAgain(RemoveAll(cells[outs[j]].incoming, i), i);
  }

  lemma UnlinkIn(cells: map<nat, Cell>, i: nat, outs: set<nat>, ins: seq<nat>, j: nat)
    requires j < |ins| && ins[j] in cells
    ensures var u := Unlinked(cells, i, outs, Elements(ins[..j]));
      ins[j] in u && Unlinked(cells, i, outs, Elements(ins[..j + 1])) == u[ins[j] := OutCut(u[ins[j]], i)]
  {
    assert Elements(ins[..j + 1]) == Elements(ins[..j]) + {ins[j]};
    RemoveAllAgain(RemoveAll(cells[ins[j]].outgoing, i), i);
  }
}
