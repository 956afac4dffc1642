/** What the methods and actions of a domain come to (lib/typedefs.h, `MethodDef::bindings`,
    `ActionDef::holds`, `ActionDef::apply`), where the evaluator answers their queries by itself: the
    bindings of a method are the assignments that satisfy its query with the task's arguments, and an
    action applies where its precondition is satisfied with its own. */
module Domains {
  import opened Queries
  import opened Enumeration
  import opened Answers
  import opened Safety
  import opened Pinning
  import opened Progression
  import opened Definitions
  import B = Basics
  import N = Networks

  // ----- Queries answered directly -----

  /** The expression finds bound what it needs, given the pins. */
  ghost predicate Direct(kb: Kb, y: Query) {
    KbOk(kb) && QueryOk(y) && Safe(y.e, PinnedSlots(kb, y), PinnedSlots(kb, y))
  }

  lemma DirectReplied(kb: Kb, y: Query, other: Solver)
    requires Direct(kb, y)
    ensures Replied(kb, y, Rows(Answered(kb, y, other)))
  {
    hide KbOk, QueryOk, Safe, PinnedSlots, SlotsOk, Asked, Begin, SlotNames, Refused, Results, ProperRow;
    SafeSupported(y.e, PinnedSlots(kb, y), PinnedSlots(kb, y));
    QueryMeans(kb, y);
    ResultsProper(kb, y);
    BeginBetween(kb, y);
    SafeAnswers(kb, y.e, Begin(kb, y), PinnedSlots(kb, y), PinnedSlots(kb, y));
  }

  /** Such a query has each row that satisfies it as an answer, once; only those if it is well typed; and
      in all of them each pinned parameter is what it is pinned to. */
  lemma DirectAnswers(kb: Kb, y: Query, other: Solver)
    requires Direct(kb, y)
    ensures B.Distinct(Answered(kb, y, other))
    ensures forall row :: Satisfies(kb, y, row) ==> row in Answered(kb, y, other)
    ensures WellTyped(kb, y) ==> forall row <- Answered(kb, y, other) :: Satisfies(kb, y, row)
    ensures forall row <- Answered(kb, y, other) :: HasPins(kb, y, row)
  {
    hide KbOk, QueryOk, Safe, PinnedSlots, Satisfies, WellTyped, Answered, Replied, PinnedTo;
    DirectReplied(kb, y, other);
    var r := Rows(Answered(kb, y, other));
    AnswersExact(kb, y, r);
    forall row | row in r.rows
      ensures HasPins(kb, y, row)
    {
      forall i, v | 0 <= i < |y.params| && PinnedTo(kb, y.fixed, y.params[i].0, v)
        ensures |row| == |y.params| && row[i] == v
      {
        RowsPinned(kb, y, r, row, i, v);
      }
    }
  }

  /** Each pinned parameter is what it is pinned to. */
  ghost predicate HasPins(kb: Kb, y: Query, row: seq<string>) {
    forall i, v :: 0 <= i < |y.params| && PinnedTo(kb, y.fixed, y.params[i].0, v) ==> i < |row| && row[i] == v
  }

  // ----- Methods -----

  /** The query of a method for a task's arguments. */
  function QueryFor(m: MethodDef, args: N.Args): Query
    requires |args| <= |m.task|
  {
    Query(m.e, m.names, m.params, Fixed(m.task, args))
  }

  /** Each variable of the task is pinned to its argument, and nothing else is. */
  lemma {:induction false} FixedMeans(task: seq<(string, bool)>, args: N.Args, name: string, v: string)
    requires |args| <= |task|
    ensures (name, v) in Fixed(task, args) <==> exists k :: 0 <= k < |args| && task[k] == (name, false) && args[k] == v
  {
    if args != [] {
      FixedMeans(task[1..], args[1..], name, v);
      var first := if task[0].1 then [] else [(task[0].0, args[0])];
      assert Fixed(task, args) == first + Fixed(task[1..], args[1..]);
      if (name, v) in Fixed(task[1..], args[1..]) {
        var k :| 0 <= k < |args[1..]| && task[1..][k] == (name, false) && args[1..][k] == v;
        assert task[k + 1] == (name, false) && args[k + 1] == v;
      }
      if exists k :: 0 <= k < |args| && task[k] == (name, false) && args[k] == v {
        var k :| 0 <= k < |args| && task[k] == (name, false) && args[k] == v;
        assert k > 0 ==> task[1..][k - 1] == (name, false) && args[1..][k - 1] == v;
      }
    }
  }

  /** A method's bindings are the assignments that satisfy its query, under its parameters' names. */
  lemma MethodBindings(m: MethodDef, other: Solver, kb: Kb, args: N.Args)
    requires |args| <= |m.task| && (forall k :: 0 <= k < |args| && m.task[k].1 ==> args[k] == m.task[k].0)
    requires Direct(kb, QueryFor(m, args))
    ensures forall row :: Satisfies(kb, QueryFor(m, args), row) ==>
      Zipped(m.params, row) in BindingsOf(m, other, kb, args)
    ensures WellTyped(kb, QueryFor(m, args)) ==> forall b <- BindingsOf(m, other, kb, args) ::
      exists row :: Satisfies(kb, QueryFor(m, args), row) && b == Zipped(m.params, row)
  {
    hide Direct, Satisfies, WellTyped, Answered, HasPins, KbOk, QueryOk;
    DirectMeans(kb, QueryFor(m, args));
    DirectAnswers(kb, QueryFor(m, args), other);
    var rows := Answered(kb, QueryFor(m, args), other);
    var bs := BindingsOf(m, other, kb, args);
    forall row | row in rows
      ensures Zipped(m.params, row) in bs
    {
      var i :| 0 <= i < |rows| && rows[i] == row;
      assert bs[i] == Zipped(m.params, row);
    }
    forall b | b in bs
      ensures exists row :: row in rows && b == Zipped(m.params, row)
    {
      var i :| 0 <= i < |bs| && bs[i] == b;
      assert rows[i] in rows;
    }
  }

  /** A method whose task has a constant where the argument is another has no bindings. */
  lemma OtherConstant(m: MethodDef, other: Solver, kb: Kb, args: N.Args, k: nat)
    requires k < |args| <= |m.task| && m.task[k].1 && args[k] != m.task[k].0
    ensures BindingsOf(m, other, kb, args) == []
  {
  }

  lemma DirectMeans(kb: Kb, y: Query)
    requires Direct(kb, y)
    ensures KbOk(kb) && QueryOk(y)
  {
  }

  /** Task variables all different. */
  ghost predicate VariablesDiffer(task: seq<(string, bool)>) {
    forall j, k :: 0 <= j < k < |task| ==> task[j].0 != task[k].0
  }

  /** Every binding gives the task's variables the task's arguments, whether or not types are kept: an
      argument that is an object, or that differs from the variable it stands for. */
  lemma BindingsKeepArguments(m: MethodDef, other: Solver, kb: Kb, args: N.Args, b: N.Binding, k: nat)
    requires Applies(m, args) && Direct(kb, QueryFor(m, args)) && b in BindingsOf(m, other, kb, args)
    requires VariablesDiffer(m.task) && k < |args| && !m.task[k].1 && (m.task[k].0 != args[k] || args[k] in kb.ids)
    requires exists i :: 0 <= i < |m.params| && m.params[i].0 == m.task[k].0
    ensures N.BoundValue(m.task[k].0, b) == B.Some(args[k])
  {
    hide Direct, Satisfies, WellTyped, Answered, KbOk;
    var y, name := QueryFor(m, args), m.task[k].0;
    DirectMeans(kb, y);
    DirectAnswers(kb, y, other);
    var rows := Answered(kb, y, other);
    var j :| 0 <= j < |rows| && b == Zipped(m.params, rows[j]);
    assert HasPins(kb, y, rows[j]);
    var i :| 0 <= i < |m.params| && m.params[i].0 == name;
    FixedOnce(m.task, args, k);
    assert PinnedTo(kb, y.fixed, y.params[i].0, args[k]) by {
      ArgumentPinned(kb, y.fixed, name, args[k]);
    }
    assert b[i] == (name, args[k]);
    BoundAt(name, b, i);
  }

  lemma ArgumentPinned(kb: Kb, fixed: seq<(string, string)>, name: string, v: string)
    requires (name, v) in fixed && (forall w :: (name, w) in fixed ==> w == v) && (name != v || v in kb.ids)
    ensures PinnedTo(kb, fixed, name, v)
  {
    var n := LastOf(fixed, name, v);
    forall j | n < j < |fixed|
      ensures fixed[j].0 != name
    {
      var pin := fixed[j];
      assert pin in fixed;
      assert pin.0 == name ==> pin == (name, pin.1);
    }
  }

  /** The last place of a pin in a list. */
  lemma {:induction false} LastOf(fixed: seq<(string, string)>, name: string, v: string) returns (n: nat)
    requires (name, v) in fixed
    ensures n < |fixed| && fixed[n] == (name, v) && forall j :: n < j < |fixed| ==> fixed[j] != (name, v)
    decreases |fixed|
  {
    n := |fixed| - 1;
    if fixed[n] != (name, v) {
      var init := fixed[..n];
      assert fixed == init + [fixed[n]];
      n := LastOf(init, name, v);
    }
  }

  lemma FixedOnce(task: seq<(string, bool)>, args: N.Args, k: nat)
    requires |args| <= |task| && VariablesDiffer(task) && k < |args| && !task[k].1
    ensures (task[k].0, args[k]) in Fixed(task, args)
    ensures forall w :: (task[k].0, w) in Fixed(task, args) ==> w == args[k]
  {
    FixedMeans(task, args, task[k].0, args[k]);
    assert task[k] == (task[k].0, false);
    forall w | (task[k].0, w) in Fixed(task, args)
      ensures w == args[k]
    {
      FixedMeans(task, args, task[k].0, w);
    }
  }

  lemma BoundAt(name: string, b: N.Binding, i: nat)
    requires i < |b| && b[i].0 == name && forall j, k :: 0 <= j < k < |b| ==> b[j].0 != b[k].0
    ensures N.BoundValue(name, b) == B.Some(b[i].1)
  {
    N.BoundFirst(name, b, i);
  }

  // ----- Actions -----

  /** Each parameter is pinned to the argument in its place. */
  lemma {:induction false} PinnedArgsMean(params: seq<(string, string)>, args: N.Args, k: nat)
    ensures |PinnedArgs(params, args)| == if |params| < |args| then |params| else |args|
    ensures k < |params| && k < |args| ==> PinnedArgs(params, args)[k] == (params[k].0, args[k])
  {
    if params != [] && args != [] {
      PinnedArgsMean(params[1..], args[1..], if k > 0 then k - 1 else 0);
    }
  }

  /** What the effects make of the state for some row that satisfies the precondition. */
  ghost predicate Yields(a: ActionDef, kb: Kb, args: N.Args, to: Kb, other: Solver)
    requires KbOk(kb) && QueryOk(CalledWith(a, args))
  {
    exists row :: Satisfies(kb, CalledWith(a, args), row) &&
                  to == Effected(kb, a.effects, a.params, Zipped(a.params, row), other)
  }

  /** An action's precondition holds exactly where it is satisfied with the arguments, which is where it
      has a successor; and its successors are those its effects give for each satisfying row. */
  lemma ActionMeans(a: ActionDef, kb: Kb, args: N.Args, other: Solver)
    requires Direct(kb, CalledWith(a, args)) && WellTyped(kb, CalledWith(a, args))
    ensures HoldsOf(a, kb, args, other) <==> exists row :: Satisfies(kb, CalledWith(a, args), row)
    ensures HoldsOf(a, kb, args, other) <==> Successors(a, kb, args, other) != []
    ensures forall to :: to in Successors(a, kb, args, other) <==> Yields(a, kb, args, to, other)
  {
    hide Direct, Satisfies, WellTyped, Answered, AnyAnswered, HasPins, KbOk, QueryOk, Effected, CalledWith;
    var y := CalledWith(a, args);
    DirectMeans(kb, y);
    DirectAnswers(kb, y, other);
    AnyIsAnswered(kb, y, other);
    var rows, next := Answered(kb, y, other), Successors(a, kb, args, other);
    assert |next| == |rows|;
    assert rows != [] ==> rows[0] in rows;
    forall row | row in rows
      ensures Effected(kb, a.effects, a.params, Zipped(a.params, row), other) in next
    {
      var i :| 0 <= i < |rows| && rows[i] == row;
      assert next[i] == Effected(kb, a.effects, a.params, Zipped(a.params, row), other);
    }
    forall to | to in next
      ensures exists row :: row in rows && to == Effected(kb, a.effects, a.params, Zipped(a.params, row), other)
    {
      var i :| 0 <= i < |next| && next[i] == to;
      assert rows[i] in rows;
    }
  }

  lemma AnyIsAnswered(kb: Kb, y: Query, other: Solver)
    requires Direct(kb, y)
    ensures AnyAnswered(kb, y, other) <==> Answered(kb, y, other) != []
  {
    hide KbOk, QueryOk, Safe, PinnedSlots, SlotsOk, Asked, Begin, SlotNames, Refused, Results, ProperRow;
    SafeSupported(y.e, PinnedSlots(kb, y), PinnedSlots(kb, y));
    QueryMeans(kb, y);
    ResultsProper(kb, y);
    BeginBetween(kb, y);
    SafeAnswers(kb, y.e, Begin(kb, y), PinnedSlots(kb, y), PinnedSlots(kb, y));
  }

  // ----- Effects with conditions and quantified variables -----

  /** A condition's query for a binding of the parameters. */
  function ConditionFor(condition: Sentence, params: seq<(string, string)>, b: N.Binding): Query {
    Query(condition.e, condition.names, params, Renamed(params, b))
  }

  /** The binding's values, under the parameters' names. */
  lemma RenamedMeans(params: seq<(string, string)>, b: N.Binding, i: nat)
    requires i < |b| && i < |params|
    ensures |Renamed(params, b)| == |b| && Renamed(params, b)[i] == (params[i].0, b[i].1)
  {
  }

  /** An effect with a condition is made exactly where the condition is satisfied with the binding. */
  lemma ConditionalEffect(kb: Kb, x: Effect, params: seq<(string, string)>, b: N.Binding, other: Solver, p: string,
      vs: Vals)
    requires x.range == [] && x.condition.Some? && Tellable(kb, x.head, FactOf(x.args, b, []))
    requires var y := ConditionFor(x.condition.value, params, b); Direct(kb, y) && WellTyped(kb, y)
    requires p in kb.rels && |vs| == kb.rels[p].arity
    ensures var y := ConditionFor(x.condition.value, params, b);
      Fact(Applied(kb, x, params, b, other), p, vs) <==>
      if p == x.head && vs == ObjectsOf(kb, FactOf(x.args, b, [])) && exists row :: Satisfies(kb, y, row)
      then !x.remove else Fact(kb, p, vs)
  {
    hide Satisfies, WellTyped, Answered, HasPins, KbOk, QueryOk, Safe, Fact, Told, FactOf, Tellable;
    var y := ConditionFor(x.condition.value, params, b);
    DirectMeans(kb, y);
    DirectAnswers(kb, y, other);
    assert Answered(kb, y, other) != [] ==> Answered(kb, y, other)[0] in Answered(kb, y, other);
    assert Passes(kb, x.condition, params, Renamed(params, b), other) <==> Answered(kb, y, other) != [];
    ToldMeans(kb, x.head, FactOf(x.args, b, []), x.remove, p, vs);
  }

  /** The condition's query for one row of the quantified variables' values: these shadow parameters of the
      same names. */
  function RangedCondition(x: Effect, condition: Sentence, params: seq<(string, string)>, b: N.Binding,
      row: seq<string>): Query {
    var names := RangeNames(x.range);
    Query(condition.e, condition.names, Unshadowed(params, names) + RangeParams(x.range),
          Unshadowed(b, names) + Zipped(RangeParams(x.range), row))
  }

  /** The arguments of the fact told for it: the row's values first, then the others not shadowed. */
  function RangedFact(x: Effect, b: N.Binding, row: seq<string>): seq<string> {
    var own := Zipped(RangeParams(x.range), row);
    FactOf(x.args, own, Unshadowed(b, RangeNames(x.range)) + own)
  }

  /** A quantified effect with a condition, one row after the other: for each, the fact is told exactly
      where the condition is satisfied in the state so far. */
  lemma RangedEffect(kb: Kb, x: Effect, params: seq<(string, string)>, b: N.Binding, rows: seq<seq<string>>,
      other: Solver, p: string, vs: Vals)
    requires rows != [] && x.condition.Some? && Tellable(kb, x.head, RangedFact(x, b, rows[0]))
    requires var y := RangedCondition(x, x.condition.value, params, b, rows[0]); Direct(kb, y) && WellTyped(kb, y)
    requires p in kb.rels && |vs| == kb.rels[p].arity
    ensures var y := RangedCondition(x, x.condition.value, params, b, rows[0]);
      var next := AppliedOver(kb, x, params, b, rows[..1], other);
      && AppliedOver(kb, x, params, b, rows, other) == AppliedOver(next, x, params, b, rows[1..], other)
      && (Fact(next, p, vs) <==>
          if p == x.head && vs == ObjectsOf(kb, RangedFact(x, b, rows[0])) && exists row :: Satisfies(kb, y, row)
          then !x.remove else Fact(kb, p, vs))
  {
    hide Satisfies, WellTyped, Answered, HasPins, KbOk, QueryOk, Safe, Fact, Told, FactOf, Tellable, Unshadowed, Zipped;
    var y := RangedCondition(x, x.condition.value, params, b, rows[0]);
    DirectMeans(kb, y);
    DirectAnswers(kb, y, other);
    assert Answered(kb, y, other) != [] ==> Answered(kb, y, other)[0] in Answered(kb, y, other);
    ToldMeans(kb, x.head, RangedFact(x, b, rows[0]), x.remove, p, vs);
    var one := rows[..1];
    assert one[0] == rows[0] && one[1..] == [];
    var next := if Answered(kb, y, other) != [] then Told(kb, x.head, RangedFact(x, b, rows[0]), x.remove) else kb;
    assert AppliedOver(next, x, params, b, [], other) == next;
    assert AppliedOver(kb, x, params, b, one, other) == next;
  }

  /** A row of objects of the quantified variables' types. */
  ghost predicate InRange(kb: Kb, range: seq<(string, seq<string>)>, row: seq<string>) {
    |row| == |range| && forall i :: 0 <= i < |row| ==>
      && row[i] in kb.ids && HasType(kb, Obj(kb.ids[row[i]]), OBJECT)
      && HasTypes(kb, Obj(kb.ids[row[i]]), range[i].1)
  }

  lemma {:induction false} AllNamed(names: seq<string>, params: seq<(string, string)>)
    requires forall i :: 0 <= i < |params| ==> params[i].0 in names
    ensures SlotNames(names, params) == names
    decreases |params|
  {
    if params != [] {
      AllNamed(names, params[1..]);
    }
  }

  /** All atoms of the types of the variables from `i` on hold. */
  lemma {:induction false} RangeAtomsMean(kb: Kb, range: seq<(string, seq<string>)>, i: nat, a: Vals)
    requires i <= |range| && |a| == |range|
    ensures forall x <- RangeAtoms(range, i) :: SlotsOk(x, |a|)
    ensures (forall x <- RangeAtoms(range, i) :: Sat(kb, x, a)) <==> forall j :: i <= j < |range| ==>
        HasTypes(kb, a[j], range[j].1)
    decreases |range| - i
  {
    hide Fact;
    if i < |range| {
      RangeAtomsMean(kb, range, i + 1, a);
      var own, rest := AtomsOf(range[i].1, i), RangeAtoms(range, i + 1);
      forall k | 0 <= k < |own|
        ensures SlotsOk(own[k], |a|) && (Sat(kb, own[k], a) <==> HasType(kb, a[i], range[i].1[k]))
      {
        assert Values(kb, [Var(i)], a) == [a[i]];
      }
      assert forall x <- own + rest :: x in own || x in rest;
      assert forall k :: 0 <= k < |own| ==> own[k] in own + rest;
      assert forall x <- rest :: x in own + rest;
      if forall x <- RangeAtoms(range, i) :: Sat(kb, x, a) {
        forall k | 0 <= k < |range[i].1|
          ensures HasType(kb, a[i], range[i].1[k])
        {
          assert own[k] in own + rest;
        }
      }
    }
  }

  lemma RangeSlots(range: seq<(string, seq<string>)>)
    ensures SlotNames(RangeNames(range), RangeParams(range)) == RangeNames(range)
  {
    forall i | 0 <= i < |range|
      ensures RangeParams(range)[i].0 in RangeNames(range)
    {
      assert RangeNames(range)[i] == range[i].0;
    }
    AllNamed(RangeNames(range), RangeParams(range));
  }

  /** What satisfies the query of a range: a row of objects of the types. */
  lemma RangeSatisfies(kb: Kb, range: seq<(string, seq<string>)>, row: seq<string>)
    requires KbOk(kb) && QueryOk(RangeQuery(range))
    ensures Satisfies(kb, RangeQuery(range), row) <==> InRange(kb, range, row)
  {
    hide KbOk, HasType, Fact, RangeAtoms;
    var y := RangeQuery(range);
    var ns := RangeNames(range);
    QueryMeans(kb, y);
    RangeSlots(range);
    if Satisfies(kb, y, row) {
      var a: Vals :| Satisfying(kb, y, ns, a) && IsRow(kb, y, ns, a, row);
      RangeAtomsMean(kb, range, 0, a);
      forall i | 0 <= i < |row|
        ensures row[i] in kb.ids && a[i] == Obj(kb.ids[row[i]]) && HasType(kb, a[i], OBJECT)
      {
        assert ns[i] == y.params[i].0;
      }
      RangeSat(kb, range, a);
    }
    if InRange(kb, range, row) {
      var a: Vals := seq(|row|, i requires 0 <= i < |row| => Obj(if row[i] in kb.ids then kb.ids[row[i]] else 0));
      RangeAtomsMean(kb, range, 0, a);
      RangeSat(kb, range, a);
      RangeRow(kb, range, a, row);
      NoPins(kb, "");
      assert Heeds(kb, ns, [], a) by {
        forall s | 0 <= s < |ns|
          ensures forall v :: !PinnedTo(kb, [], ns[s], v)
        {
          NoPins(kb, ns[s]);
        }
      }
      assert Satisfying(kb, y, ns, a);
    }
  }

  lemma RangeSat(kb: Kb, range: seq<(string, seq<string>)>, a: Vals)
    requires SlotsOk(RangeQuery(range).e, |a|) && |a| == |range|
    ensures Sat(kb, RangeQuery(range).e, a) <==> forall j :: 0 <= j < |range| ==> HasTypes(kb, a[j], range[j].1)
  {
    hide HasType;
    RangeAtomsMean(kb, range, 0, a);
    var atoms := RangeAtoms(range, 0);
    assert forall i :: 0 <= i < |atoms| ==> atoms[i] in atoms;
  }

  /** Names differ, so each slot is its own parameter's. */
  lemma RangeRow(kb: Kb, range: seq<(string, seq<string>)>, a: Vals, row: seq<string>)
    requires QueryOk(RangeQuery(range)) && |a| == |row| && InRange(kb, range, row)
    requires forall i :: 0 <= i < |row| ==> a[i] == Obj(kb.ids[row[i]])
    ensures IsRow(kb, RangeQuery(range), RangeNames(range), a, row)
  {
    hide HasType, SlotsOk;
  }

  lemma {:induction false} AtomsSafe(e: Expr, pos: nat, sure: set<nat>, maybe: set<nat>)
    requires e.And? && pos <= 2 * |e.children| && forall c <- e.children :: c.Atom?
    ensures AndSafe(e, pos, sure, maybe)
    decreases 2 * |e.children| - pos
  {
    if pos < 2 * |e.children| {
      if Skipped(e.children, pos) {
        AtomsSafe(e, pos + 1, sure, maybe);
      } else {
        AtomsSafe(e, pos + 1, Safety.After(ChildAt(e.children, pos), sure), maybe + Free(e));
      }
    }
  }

  lemma {:induction false} AllAtoms(range: seq<(string, seq<string>)>, i: nat)
    requires i <= |range|
    ensures forall x <- RangeAtoms(range, i) :: x.Atom?
    decreases |range| - i
  {
    if i < |range| {
      AllAtoms(range, i + 1);
    }
  }

  lemma RangeDirect(kb: Kb, range: seq<(string, seq<string>)>)
    requires KbOk(kb) && QueryOk(RangeQuery(range))
    ensures Direct(kb, RangeQuery(range))
  {
    hide KbOk, QueryOk, PinnedSlots;
    var y := RangeQuery(range);
    AllAtoms(range, 0);
    if y.e.And? {
      AtomsSafe(y.e, 0, PinnedSlots(kb, y), PinnedSlots(kb, y));
    }
  }

  /** The values an effect's quantified variables take: each row of objects of their types, once. */
  lemma RangeMeans(kb: Kb, range: seq<(string, seq<string>)>, other: Solver)
    requires KbOk(kb) && QueryOk(RangeQuery(range)) && WellTyped(kb, RangeQuery(range))
    ensures B.Distinct(RangeOf(kb, range, other))
    ensures forall row :: row in RangeOf(kb, range, other) <==> InRange(kb, range, row)
  {
    hide Direct, Satisfies, WellTyped, Answered, HasPins, KbOk, QueryOk, InRange, RangeQuery;
    var y := RangeQuery(range);
    RangeDirect(kb, range);
    DirectAnswers(kb, y, other);
    forall row
      ensures Satisfies(kb, y, row) <==> InRange(kb, range, row)
    {
      RangeSatisfies(kb, range, row);
    }
  }
}
