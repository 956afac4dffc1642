/** Partially ordered task networks and the networks that decomposing a task produces
    (lib/typedefs.h). This is the value a network stands for: tasks by id, the ordering as a
    set of edges, and the method preconditions still to be checked. TaskGraphs.dfy models the
    edge lists and the copy-on-write cells that hold it. */
module Networks {
  import opened Basics

  /** How a method's precondition is read. */
  datatype Mode = Compiled | AtStart | Protected

  type Args = seq<string>

  /** A method's binding: parameter name and value, in parameter order. */
  type Binding = seq<(string, string)>

  /** A grounded task, with the checks it carries and, for a synthesised precondition task,
      the check it establishes. */
  datatype Task = Task(head: string, args: Args, checks: set<nat>, establishes: Option<nat>)

  /** A recorded method precondition. `at` is the step count when the early check passed. */
  datatype Check = Check(action: string, args: Args, established: bool, consumed: bool, at: int)

  datatype Net = Net(tasks: map<nat, Task>, edges: set<(nat, nat)>, next: nat,
                     checks: seq<Check>, step: nat)

  const PRE_LABEL := "__mprec__"

  /** An argument of a subtask: a name, and whether the loader recorded it as a constant. */
  datatype Arg = Arg(name: string, constant: bool)

  datatype Sub = Sub(name: string, head: string, args: seq<Arg>)

  /** A method's subtasks, in the order its table is walked, and its orderings by label. */
  datatype Body = Body(subs: seq<Sub>, orderings: map<string, set<string>>)

  // ----- Networks -----

  /** Edges join tasks of the network, ids come from the counter, and tags name checks. */
  ghost predicate Valid(n: Net) {
    && (forall e <- n.edges :: e.0 in n.tasks && e.1 in n.tasks)
    && (forall i <- n.tasks :: i < n.next)
    && (forall i <- n.tasks :: forall k <- n.tasks[i].checks :: k < |n.checks|)
    && (forall i <- n.tasks :: n.tasks[i].establishes.Some? ==> n.tasks[i].establishes.value < |n.checks|)
  }

  /** No predecessor: the task may be progressed. */
  ghost predicate Free(n: Net, t: nat) {
    t in n.tasks && forall x: nat :: (x, t) !in n.edges
  }

  function RemoveTask(n: Net, t: nat): Net {
    n.(tasks := n.tasks - {t}, edges := set e | e in n.edges && e.0 != t && e.1 != t)
  }

  // ----- Grounding a method -----

  /** The first value the binding gives `name`. */
  function BoundValue(name: string, b: Binding): Option<string> {
    if b == [] then None
    else if b[0].0 == name then Some(b[0].1)
    else BoundValue(name, b[1..])
  }

  /** A variable's value, and any other name as itself. */
  function ValueOf(name: string, b: Binding): string {
    var v := BoundValue(name, b);
    if v.Some? then v.value else name
  }

  /** A subtask's arguments: a recorded constant passes through whatever the binding says. */
  function GroundArgs(args: seq<Arg>, b: Binding): Args {
    seq(|args|, i requires 0 <= i < |args| =>
      if args[i].constant then args[i].name else ValueOf(args[i].name, b))
  }

  /** A check's arguments, looked up without regard to constants. */
  function CheckArgs(args: seq<Arg>, b: Binding): Args {
    seq(|args|, i requires 0 <= i < |args| => ValueOf(args[i].name, b))
  }

  predicate Ordered(m: Body, i: nat, j: nat)
    requires i < |m.subs| && j < |m.subs|
  {
    m.subs[i].name in m.orderings && m.subs[j].name in m.orderings[m.subs[i].name]
  }

  /** A subtask with no successor inside the method: it inherits the decomposed task's. */
  predicate Last(m: Body, i: nat)
    requires i < |m.subs|
  {
    m.subs[i].name !in m.orderings || m.orderings[m.subs[i].name] == {}
  }

  predicate HasPre(m: Body) {
    exists i :: 0 <= i < |m.subs| && m.subs[i].name == PRE_LABEL
  }

  /** Labels are a table's keys and orderings name labels of the method. */
  ghost predicate LabelsOk(m: Body) {
    && (forall i, j :: 0 <= i < j < |m.subs| ==> m.subs[i].name != m.subs[j].name)
    && (forall l <- m.orderings :: exists i :: 0 <= i < |m.subs| && m.subs[i].name == l)
    && (forall l <- m.orderings :: forall r <- m.orderings[l] ::
          exists i :: 0 <= i < |m.subs| && m.subs[i].name == r)
  }

  function PreIndex(m: Body): (i: nat)
    requires HasPre(m)
    ensures i < |m.subs| && m.subs[i].name == PRE_LABEL
  {
    PreFrom(m, 0)
  }

  function PreFrom(m: Body, from: nat): (i: nat)
    requires exists i :: from <= i < |m.subs| && m.subs[i].name == PRE_LABEL
    ensures i < |m.subs| && m.subs[i].name == PRE_LABEL
    decreases |m.subs| - from
  {
    if m.subs[from].name == PRE_LABEL then from else PreFrom(m, from + 1)
  }

  /** Outside Compiled mode a method with a precondition records one check. */
  predicate Records(mode: Mode, m: Body) {
    mode != Compiled && HasPre(m)
  }

  /** The grounded subtask that is given id `id`. */
  function SubTask(mode: Mode, n: Net, t: nat, m: Body, b: Binding, id: nat): Task
    requires t in n.tasks && n.next <= id < n.next + |m.subs|
  {
    var own, i := |n.checks|, id - n.next;
    Task(m.subs[i].head, GroundArgs(m.subs[i].args, b),
         if mode == Compiled then {}
         else n.tasks[t].checks + (if Records(mode, m) then {own} else {}),
         if Records(mode, m) && m.subs[i].name == PRE_LABEL then Some(own) else None)
  }

  function OwnCheck(m: Body, b: Binding): Check
    requires HasPre(m)
  {
    var pre := m.subs[PreIndex(m)];
    Check(pre.head, CheckArgs(pre.args, b), false, false, -1)
  }

  /** The edges the first `k` subtasks inherit: each last one before each successor of `t`. */
  function InheritedEdges(n: Net, t: nat, m: Body, k: nat): set<(nat, nat)>
    requires k <= |m.subs|
  {
    set i: nat, e | 0 <= i < k && e in n.edges && e.0 == t && e.1 != t && Last(m, i) :: (n.next + i, e.1)
  }

  /** The method's own orderings, between the ids its subtasks are given. */
  function OwnEdges(n: Net, m: Body): set<(nat, nat)> {
    set i: nat, j: nat | 0 <= i < |m.subs| && 0 <= j < |m.subs| && Ordered(m, i, j) :: (n.next + i, n.next + j)
  }

  function NewEdges(n: Net, t: nat, m: Body): set<(nat, nat)> {
    InheritedEdges(n, t, m, |m.subs|) + OwnEdges(n, m)
  }

  /** The ids a decomposition hands out. */
  function NewIds(from: nat, k: nat): seq<nat> {
    seq(k, i requires 0 <= i < k => from + i)
  }

  /** The first `k` grounded subtasks. */
  function NewTasks(mode: Mode, n: Net, t: nat, m: Body, b: Binding, k: nat): map<nat, Task>
    requires t in n.tasks && k <= |m.subs|
  {
    map i: nat | n.next <= i < n.next + k :: SubTask(mode, n, t, m, b, i)
  }

  /** The network that decomposing `t` by `m` under `b` produces. */
  function Ground(mode: Mode, n: Net, t: nat, m: Body, b: Binding): Net
    requires t in n.tasks
  {
    var kept := RemoveTask(n, t);
    Net(kept.tasks + NewTasks(mode, n, t, m, b, |m.subs|),
        kept.edges + NewEdges(n, t, m),
        n.next + |m.subs|,
        n.checks + (if Records(mode, m) then [OwnCheck(m, b)] else []),
        n.step)
  }

  /** The grounded network's ordering, case by case. */
  predicate GroundHasEdge(n: Net, t: nat, m: Body, x: nat, y: nat) {
    if x < n.next then (x, y) in n.edges && x != t && y != t
    else x < n.next + |m.subs| &&
         (if y < n.next then (t, y) in n.edges && y != t && Last(m, x - n.next)
          else y < n.next + |m.subs| && Ordered(m, x - n.next, y - n.next))
  }

  lemma GroundEdge(mode: Mode, n: Net, t: nat, m: Body, b: Binding, x: nat, y: nat)
    requires Valid(n) && t in n.tasks
    ensures (x, y) in Ground(mode, n, t, m, b).edges <==> GroundHasEdge(n, t, m, x, y)
  {
    if x >= n.next && y >= n.next && x < n.next + |m.subs| && y < n.next + |m.subs| {
      var i, j := x - n.next, y - n.next;
      assert Ordered(m, i, j) ==> (n.next + i, n.next + j) in NewEdges(n, t, m);
    }
    if x >= n.next && x < n.next + |m.subs| && y < n.next && (t, y) in n.edges && y != t && Last(m, x - n.next) {
      var i := x - n.next;
      assert (t, y).0 == t;
      assert (n.next + i, (t, y).1) in NewEdges(n, t, m);
    }
  }

  lemma GroundValid(mode: Mode, n: Net, t: nat, m: Body, b: Binding)
    requires Valid(n) && t in n.tasks
    ensures Valid(Ground(mode, n, t, m, b))
  {
    var g := Ground(mode, n, t, m, b);
    assert |g.checks| == |n.checks| + (if Records(mode, m) then 1 else 0);
    forall i | i in g.tasks
      ensures i < g.next
      ensures forall k <- g.tasks[i].checks :: k < |g.checks|
      ensures g.tasks[i].establishes.Some? ==> g.tasks[i].establishes.value < |g.checks|
    {
      if i >= n.next {
        assert g.tasks[i] == SubTask(mode, n, t, m, b, i);
      } else {
        assert g.tasks[i] == n.tasks[i];
      }
    }
  }

  lemma RemoveValid(n: Net, t: nat)
    requires Valid(n)
    ensures Valid(RemoveTask(n, t))
  {
  }

  // ----- What the binding does -----

  /** The binding's first value for a name, as a search from the front finds it. */
  lemma {:induction false} BoundFirst(name: string, b: Binding, k: nat)
    requires k < |b| && b[k].0 == name && forall l :: 0 <= l < k ==> b[l].0 != name
    ensures BoundValue(name, b) == Some(b[k].1)
    decreases k
  {
    if k > 0 {
      BoundFirst(name, b[1..], k - 1);
    }
  }

  lemma {:induction false} BoundNone(name: string, b: Binding)
    requires forall l :: 0 <= l < |b| ==> b[l].0 != name
    ensures BoundValue(name, b) == None
  {
    if b != [] {
      BoundNone(name, b[1..]);
    }
  }

  /** `v` is what the binding gives the name: its first value for it, or the name itself if it has none. */
  ghost predicate Substituted(name: string, b: Binding, v: string) {
    && (forall k :: 0 <= k < |b| && b[k].0 == name && (forall l :: 0 <= l < k ==> b[l].0 != name) ==> v == b[k].1)
    && ((forall l :: 0 <= l < |b| ==> b[l].0 != name) ==> v == name)
  }

  lemma ValueSubstituted(name: string, b: Binding)
    ensures Substituted(name, b, ValueOf(name, b))
  {
    forall k | 0 <= k < |b| && b[k].0 == name && (forall l :: 0 <= l < k ==> b[l].0 != name)
      ensures ValueOf(name, b) == b[k].1
    {
      BoundFirst(name, b, k);
    }
    if forall l :: 0 <= l < |b| ==> b[l].0 != name {
      BoundNone(name, b);
    }
  }

  /** Where the names of a binding differ, a name it has is given its value. */
  lemma SubstitutedByName(name: string, w: string, b: Binding, v: string)
    requires Substituted(name, b, v) && (name, w) in b && forall k, l :: 0 <= k < l < |b| ==> b[k].0 != b[l].0
    ensures v == w
  {
    var k :| 0 <= k < |b| && b[k] == (name, w);
  }

  /** The `i`-th grounded subtask: its head, each argument a constant of its own name or what the binding
      gives, the decomposed task's checks and the method's own, and whether it establishes that. */
  lemma GroundedTask(mode: Mode, n: Net, t: nat, m: Body, b: Binding, i: nat)
    requires t in n.tasks && i < |m.subs|
    ensures n.next + i in Ground(mode, n, t, m, b).tasks
    ensures var x := Ground(mode, n, t, m, b).tasks[n.next + i];
      && x.head == m.subs[i].head && |x.args| == |m.subs[i].args|
      && (forall j :: 0 <= j < |x.args| && m.subs[i].args[j].constant ==> x.args[j] == m.subs[i].args[j].name)
      && (forall j :: 0 <= j < |x.args| && !m.subs[i].args[j].constant ==>
          Substituted(m.subs[i].args[j].name, b, x.args[j]))
      && (forall k :: k in x.checks <==>
            mode != Compiled &&
                (k in n.tasks[t].checks || (k == |n.checks| && exists p <- m.subs :: p.name == PRE_LABEL)))
      && x.establishes == if mode != Compiled && m.subs[i].name == PRE_LABEL then Some(|n.checks|) else None
  {
    var x := Ground(mode, n, t, m, b).tasks[n.next + i];
    assert x == SubTask(mode, n, t, m, b, n.next + i);
    assert m.subs[i] in m.subs;
    assert HasPre(m) <==> exists p <- m.subs :: p.name == PRE_LABEL;
    forall j | 0 <= j < |x.args| && !m.subs[i].args[j].constant
      ensures Substituted(m.subs[i].args[j].name, b, x.args[j])
    {
      ValueSubstituted(m.subs[i].args[j].name, b);
    }
  }

  /** The check a method with a precondition records: the check's action, and its arguments as the binding
      gives them, neither established nor consumed. Another method records none. */
  lemma GroundedCheck(mode: Mode, n: Net, t: nat, m: Body, b: Binding, p: nat)
    requires t in n.tasks && LabelsOk(m)
    requires p < |m.subs| && m.subs[p].name == PRE_LABEL && mode != Compiled
    ensures var checks := Ground(mode, n, t, m, b).checks;
      && |checks| == |n.checks| + 1 && checks[..|n.checks|] == n.checks
      && var c := checks[|n.checks|];
      && c.action == m.subs[p].head && |c.args| == |m.subs[p].args| && !c.established && !c.consumed
      && forall j :: 0 <= j < |c.args| ==> Substituted(m.subs[p].args[j].name, b, c.args[j])
  {
    assert HasPre(m) && PreIndex(m) == p;
    var c := Ground(mode, n, t, m, b).checks[|n.checks|];
    forall j | 0 <= j < |c.args|
      ensures Substituted(m.subs[p].args[j].name, b, c.args[j])
    {
      ValueSubstituted(m.subs[p].args[j].name, b);
    }
  }

  lemma NoCheckGrounded(mode: Mode, n: Net, t: nat, m: Body, b: Binding)
    requires t in n.tasks && (mode == Compiled || forall p <- m.subs :: p.name != PRE_LABEL)
    ensures Ground(mode, n, t, m, b).checks == n.checks
  {
  }
}
