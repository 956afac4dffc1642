/** What `ask` and `ask_any` answer (lib/evaluator.h): the parameter assignments that satisfy the
    expression and agree with what is pinned, each once. */
module Answers {
  import opened Queries
  import opened Enumeration
  import opened Coverage
  import opened Evaluator
  import opened B = Basics

  // ----- What a search records -----

  lemma {:induction false} AddAllMeans(found: seq<Vals>, rows: seq<Vals>)
    ensures forall r :: r in AddAll(found, rows) <==> r in found || r in rows
    ensures Distinct(found) ==> Distinct(AddAll(found, rows))
    decreases |rows|
  {
    if rows != [] {
      AddAllMeans(if rows[0] in found then found else found + [rows[0]], rows[1..]);
    }
  }

  function AllWidened(kb: Kb, q: Params, n: nat, ls: seq<Vals>): seq<Vals>
    requires ParamsOk(q, n) && forall l <- ls :: |l| == n
  {
    if ls == [] then [] else Widened(kb, q, 0, ls[0]) + AllWidened(kb, q, n, ls[1..])
  }

  lemma {:induction false} AllWidenedMeans(kb: Kb, q: Params, n: nat, ls: seq<Vals>)
    requires ParamsOk(q, n) && forall l <- ls :: |l| == n
    ensures forall r :: r in AllWidened(kb, q, n, ls) <==> exists l :: l in ls && r in Widened(kb, q, 0, l)
  {
    hide Widened;
    if ls != [] {
      AllWidenedMeans(kb, q, n, ls[1..]);
      forall r
        ensures r in AllWidened(kb, q, n, ls) <==> exists l :: l in ls && r in Widened(kb, q, 0, l)
      {
        assert ls[0] in ls && forall l <- ls :: l == ls[0] || l in ls[1..];
        assert forall l <- ls[1..] :: l in ls;
      }
    }
  }

  const START := State([], false, false, false)

  /** Collecting goes through every binding. */
  lemma {:induction false} FeedCollect(kb: Kb, q: Params, o: Out, n: nat, s: State)
    requires ParamsOk(q, n) && (forall l <- o.leaves :: |l| == n) && !Stopped(s)
    ensures Feed(kb, q, o, n, Collect, s) ==
        s.(found := AddAll(s.found, AllWidened(kb, q, n, o.leaves)), abort := o.abort)
    decreases |o.leaves|
  {
    hide Widened;
    if o.leaves != [] {
      var s' := Done(kb, q, Collect, o.leaves[0], s);
      FeedCollect(kb, q, Out(o.leaves[1..], o.abort), n, s');
      AddAllConcat(s.found, Widened(kb, q, 0, o.leaves[0]), AllWidened(kb, q, n, o.leaves[1..]));
    }
  }

  /** Asking for any stops at the first binding that can be widened. */
  lemma {:induction false} FeedAny(kb: Kb, q: Params, o: Out, n: nat, s: State)
    requires ParamsOk(q, n) && (forall l <- o.leaves :: |l| == n) && !Stopped(s)
    ensures Feed(kb, q, o, n, Any, s) ==
            if exists l :: l in o.leaves && Possible(kb, q, l) then s.(any := true, halt := true)
                else s.(abort := o.abort)
    decreases |o.leaves|
  {
    hide Possible;
    if o.leaves != [] {
      assert o.leaves == [o.leaves[0]] + o.leaves[1..];
      if !Possible(kb, q, o.leaves[0]) {
        FeedAny(kb, q, Out(o.leaves[1..], o.abort), n, s);
      }
    }
  }

  // ----- Widening -----

  ghost predicate DistinctSlots(q: Params) {
    Distinct(q.slots)
  }

  /** `v` is `val` with the unbound parameters from `i` on given objects of their types. */
  ghost predicate Widening(kb: Kb, q: Params, i: nat, val: Vals, v: Vals)
    requires ParamsOk(q, |val|) && i <= |q.slots|
  {
    && |v| == |val|
    && (forall s: nat :: s < |val| && s !in q.slots[i..] ==> v[s] == val[s])
    && (forall j :: i <= j < |q.slots| ==> Filled(kb, val[q.slots[j]], q.types[j], v[q.slots[j]]))
  }

  ghost predicate Filled(kb: Kb, was: Val, t: string, now: Val) {
    if was != Unbound then now == was else now.Obj? && now.id in Extension(kb, t)
  }

  lemma {:induction false} WidenedSound(kb: Kb, q: Params, i: nat, val: Vals, row: Vals)
    requires ParamsOk(q, |val|) && i <= |q.slots| && DistinctSlots(q) && row in Widened(kb, q, i, val)
    ensures exists v :: Widening(kb, q, i, val, v) && row == Row(q, v)
    decreases |q.slots| - i, 1, 0
  {
    if i == |q.slots| {
      assert Widening(kb, q, i, val, val);
    } else if val[q.slots[i]] != Unbound {
      WidenedSound(kb, q, i + 1, val, row);
      var v :| Widening(kb, q, i + 1, val, v) && row == Row(q, v);
      WideningBack(kb, q, i, val, val[q.slots[i]], v);
    } else {
      WidenedOverSound(kb, q, i, val, Extension(kb, q.types[i]), row);
    }
  }

  lemma {:induction false} WidenedOverSound(kb: Kb, q: Params, i: nat, val: Vals, ext: seq<nat>, row: Vals)
    requires ParamsOk(q, |val|) && i < |q.slots| && DistinctSlots(q) && row in WidenedOver(kb, q, i, val, ext)
    requires val[q.slots[i]] == Unbound && forall x <- ext :: x in Extension(kb, q.types[i])
    ensures exists v :: Widening(kb, q, i, val, v) && row == Row(q, v)
    decreases |q.slots| - i, 0, |ext|
  {
    var next := val[q.slots[i] := Obj(ext[0])];
    if row in Widened(kb, q, i + 1, next) {
      WidenedSound(kb, q, i + 1, next, row);
      var v :| Widening(kb, q, i + 1, next, v) && row == Row(q, v);
      WideningBack(kb, q, i, val, Obj(ext[0]), v);
    } else {
      WidenedOverSound(kb, q, i, val, ext[1..], row);
    }
  }

  /** A widening from the next parameter on, with this one given `x`. */
  lemma WideningBack(kb: Kb, q: Params, i: nat, val: Vals, x: Val, v: Vals)
    requires ParamsOk(q, |val|) && i < |q.slots| && DistinctSlots(q) && Filled(kb, val[q.slots[i]], q.types[i], x)
    requires Widening(kb, q, i + 1, val[q.slots[i] := x], v)
    ensures Widening(kb, q, i, val, v)
  {
    var slot := q.slots[i];
    assert slot !in q.slots[i + 1..];
    forall s: nat | s < |val| && s !in q.slots[i..]
      ensures v[s] == val[s]
    {
      assert q.slots[i] in q.slots[i..];
      assert s !in q.slots[i + 1..] by {
        assert forall y <- q.slots[i + 1..] :: y in q.slots[i..];
      }
    }
    forall j | i < j < |q.slots|
      ensures Filled(kb, val[q.slots[j]], q.types[j], v[q.slots[j]])
    {
      assert q.slots[j] != slot;
    }
  }

  lemma {:induction false} WidenedComplete(kb: Kb, q: Params, i: nat, val: Vals, v: Vals)
    requires ParamsOk(q, |val|) && i <= |q.slots| && DistinctSlots(q) && Widening(kb, q, i, val, v)
    ensures Row(q, v) in Widened(kb, q, i, val)
    decreases |q.slots| - i, 1, 0
  {
    if i == |q.slots| {
      assert v == val;
    } else {
      var slot := q.slots[i];
      assert Filled(kb, val[slot], q.types[i], v[slot]);
      WideningOn(kb, q, i, val, v);
      if val[slot] != Unbound {
        assert val[slot := v[slot]] == val;
        WidenedComplete(kb, q, i + 1, val, v);
      } else {
        WidenedOverComplete(kb, q, i, val, Extension(kb, q.types[i]), v);
      }
    }
  }

  lemma WideningOn(kb: Kb, q: Params, i: nat, val: Vals, v: Vals)
    requires ParamsOk(q, |val|) && i < |q.slots| && DistinctSlots(q) && Widening(kb, q, i, val, v)
    ensures Widening(kb, q, i + 1, val[q.slots[i] := v[q.slots[i]]], v)
  {
    var slot := q.slots[i];
    forall s: nat | s < |val| && s !in q.slots[i + 1..]
      ensures v[s] == val[slot := v[slot]][s]
    {
      if s != slot {
        assert s !in q.slots[i..];
      }
    }
    forall j | i < j < |q.slots|
      ensures Filled(kb, val[slot := v[slot]][q.slots[j]], q.types[j], v[q.slots[j]])
    {
      assert Filled(kb, val[q.slots[j]], q.types[j], v[q.slots[j]]);
    }
  }

  lemma {:induction false} WidenedOverComplete(kb: Kb, q: Params, i: nat, val: Vals, ext: seq<nat>, v: Vals)
    requires ParamsOk(q, |val|) && i < |q.slots| && DistinctSlots(q) && |v| == |val|
    requires v[q.slots[i]].Obj? && v[q.slots[i]].id in ext
    requires Widening(kb, q, i + 1, val[q.slots[i] := v[q.slots[i]]], v)
    ensures Row(q, v) in WidenedOver(kb, q, i, val, ext)
    decreases |q.slots| - i, 0, |ext|
  {
    if ext[0] == v[q.slots[i]].id {
      WidenedComplete(kb, q, i + 1, val[q.slots[i] := Obj(ext[0])], v);
    } else {
      WidenedOverComplete(kb, q, i, val, ext[1..], v);
    }
  }

  /** A binding can be widened exactly when every unbound parameter's type has an object. */
  lemma {:induction false} PossibleMeans(kb: Kb, q: Params, val: Vals)
    requires ParamsOk(q, |val|) && DistinctSlots(q)
    ensures Possible(kb, q, val) <==> Widened(kb, q, 0, val) != []
  {
    if Possible(kb, q, val) {
      var v := seq(|val|, s requires 0 <= s < |val| => Choice(kb, q, val, s, 0));
      forall j | 0 <= j < |q.slots|
        ensures Filled(kb, val[q.slots[j]], q.types[j], v[q.slots[j]])
      {
        ChoiceAt(kb, q, val, 0, j);
      }
      forall s: nat | s < |val| && s !in q.slots[0..]
        ensures v[s] == val[s]
      {
        NoChoice(kb, q, val, s, 0);
      }
      WidenedComplete(kb, q, 0, val, v);
    }
    if Widened(kb, q, 0, val) != [] {
      WidenedSound(kb, q, 0, val, Widened(kb, q, 0, val)[0]);
      var v :| Widening(kb, q, 0, val, v);
      forall j | 0 <= j < |q.slots|
        ensures val[q.slots[j]] != Unbound || Extension(kb, q.types[j]) != []
      {
        assert Filled(kb, val[q.slots[j]], q.types[j], v[q.slots[j]]);
      }
    }
  }

  /** The first object of the type of the parameter at slot `s`, if it is one and is unbound. */
  function Choice(kb: Kb, q: Params, val: Vals, s: nat, i: nat): Val
    requires ParamsOk(q, |val|) && s < |val| && i <= |q.slots|
    decreases |q.slots| - i
  {
    if val[s] != Unbound || i == |q.slots| then val[s]
    else if q.slots[i] ==
        s then (if Extension(kb, q.types[i]) == [] then Unbound else Obj(Extension(kb, q.types[i])[0]))
    else Choice(kb, q, val, s, i + 1)
  }

  lemma {:induction false} ChoiceAt(kb: Kb, q: Params, val: Vals, i: nat, j: nat)
    requires ParamsOk(q, |val|) && DistinctSlots(q) && Possible(kb, q, val) && i <= j < |q.slots|
    ensures Filled(kb, val[q.slots[j]], q.types[j], Choice(kb, q, val, q.slots[j], i))
    decreases j - i
  {
    if i < j {
      ChoiceAt(kb, q, val, i + 1, j);
    }
  }

  lemma {:induction false} NoChoice(kb: Kb, q: Params, val: Vals, s: nat, i: nat)
    requires ParamsOk(q, |val|) && s < |val| && i <= |q.slots| && s !in q.slots[i..]
    ensures Choice(kb, q, val, s, i) == val[s]
    decreases |q.slots| - i
  {
    if i < |q.slots| {
      assert q.slots[i] in q.slots[i..];
      assert forall y <- q.slots[i + 1..] :: y in q.slots[i..];
      NoChoice(kb, q, val, s, i + 1);
    }
  }

  // ----- The results, against satisfaction -----

  ghost function Results(kb: Kb, q: Params, e: Expr, val: Vals): seq<Vals>
    requires ParamsOk(q, |val|) && SlotsOk(e, |val|)
  {
    AddAll([], AllWidened(kb, q, |val|, Leaves(kb, e, val).leaves))
  }

  ghost predicate ParamsTyped(kb: Kb, q: Params, a: Vals)
    requires ParamsOk(q, |a|)
  {
    forall i :: 0 <= i < |q.slots| ==> HasType(kb, a[q.slots[i]], q.types[i])
  }

  /** The parameters a binding has settled have their types. */
  ghost predicate SettledTyped(kb: Kb, q: Params, l: Vals)
    requires ParamsOk(q, |l|)
  {
    forall i :: 0 <= i < |q.slots| ==> l[q.slots[i]] == Unbound || HasType(kb, l[q.slots[i]], q.types[i])
  }

  /** What a query is about: an assignment that agrees with `val` and satisfies the expression. */
  ghost predicate Meets(kb: Kb, e: Expr, val: Vals, a: Vals)
    requires SlotsOk(e, |val|)
  {
    |a| == |val| && Ext(a, val) && Sat(kb, e, a)
  }

  lemma {:induction false} HeadsMeans(ts: seq<seq<nat>>, x: nat)
    requires forall t <- ts :: |t| == 1
    ensures x in Heads(ts) <==> [x] in ts
  {
    if ts != [] {
      assert [x] == ts[0] <==> x == ts[0][0];
      HeadsMeans(ts[1..], x);
    }
  }

  lemma ExtensionMeans(kb: Kb, v: Val, t: string)
    requires KbOk(kb)
    ensures HasType(kb, v, t) <==> v.Obj? && v.id in Extension(kb, t)
    ensures HasType(kb, v, t) ==> v.id < |kb.names|
  {
    if t in kb.rels && kb.rels[t].arity == 1 {
      assert forall x <- kb.rels[t].tuples :: TupleOk(kb, 1, x);
      if v.Obj? {
        HeadsMeans(kb.rels[t].tuples, v.id);
        if [v.id] in kb.rels[t].tuples {
          assert Names([v], [v.id]) && TupleOk(kb, 1, [v.id]);
        }
      }
      if HasType(kb, v, t) {
        var x :| x in kb.rels[t].tuples && Names([v], x);
        assert [v][0] == Obj(x[0]) && x == [v.id];
      }
    }
  }

  lemma ResultsDistinct(kb: Kb, q: Params, e: Expr, val: Vals)
    requires ParamsOk(q, |val|) && SlotsOk(e, |val|)
    ensures Distinct(Results(kb, q, e, val))
    ensures forall r :: r in Results(kb, q, e, val) <==>
        exists l :: l in Leaves(kb, e, val).leaves && r in Widened(kb, q, 0, l)
  {
    hide Leaves, Widened, AllWidened, AddAll;
    var ls := Leaves(kb, e, val).leaves;
    var rows := AllWidened(kb, q, |val|, ls);
    AddAllMeans([], rows);
    AllWidenedMeans(kb, q, |val|, ls);
    forall r
      ensures r in Results(kb, q, e, val) <==> exists l :: l in ls && r in Widened(kb, q, 0, l)
    {
      assert r in AddAll([], rows) <==> r in rows;
    }
  }

  /** Every well-typed assignment a query is about is among the results. */
  lemma ResultsComplete(kb: Kb, q: Params, e: Expr, val: Vals, a: Vals)
    requires KbOk(kb) && ParamsOk(q, |val|) && DistinctSlots(q) && SlotsOk(e, |val|) && Typed(e)
    requires !Leaves(kb, e, val).abort && Meets(kb, e, val, a) && ParamsTyped(kb, q, a)
    ensures Row(q, a) in Results(kb, q, e, val)
  {
    hide Leaves, Typed, SlotsOk, Sat, KbOk, HasType;
    LeavesCover(kb, e, val);
    var ls := Leaves(kb, e, val).leaves;
    assert Reached(ls, a);
    var l :| l in ls && Ext(a, l);
    var v := Merge(q, l, a);
    forall j | 0 <= j < |q.slots|
      ensures Filled(kb, l[q.slots[j]], q.types[j], v[q.slots[j]])
    {
      ExtensionMeans(kb, a[q.slots[j]], q.types[j]);
      assert q.slots[j] in q.slots;
    }
    assert q.slots[0..] == q.slots;
    assert Widening(kb, q, 0, l, v);
    WidenedComplete(kb, q, 0, l, v);
    assert Row(q, v) == Row(q, a) by {
      assert forall j :: 0 <= j < |q.slots| ==> q.slots[j] in q.slots;
    }
    ResultsDistinct(kb, q, e, val);
  }

  /** `l`, with the parameters as in `a`. */
  function Merge(q: Params, l: Vals, a: Vals): Vals
    requires |l| == |a|
  {
    seq(|l|, s requires 0 <= s < |l| => if s in q.slots then a[s] else l[s])
  }

  /** Every result is an assignment the query is about, with the parameters left open well typed. */
  lemma ResultsSound(kb: Kb, q: Params, e: Expr, val: Vals, row: Vals)
    requires KbOk(kb) && ParamsOk(q, |val|) && DistinctSlots(q) && SlotsOk(e, |val|) && Typed(e)
    requires row in Results(kb, q, e, val)
    ensures exists l, a :: l in Leaves(kb, e, val).leaves && |l| == |val| && Meets(kb, e,
        val, a) && Row(q, a) == row && Opened(kb, q, l, a)
  {
    hide Leaves, Typed, SlotsOk, Sat, KbOk, HasType, Grows, LeafSound;
    ResultsDistinct(kb, q, e, val);
    LeavesCover(kb, e, val);
    var l :| l in Leaves(kb, e, val).leaves && row in Widened(kb, q, 0, l);
    WidenedSound(kb, q, 0, l, row);
    var v :| Widening(kb, q, 0, l, v) && row == Row(q, v);
    var a := Fill(v);
    WideningOpened(kb, q, l, v, a);
    ExtGrows(a, l, val);
    LeafHolds(kb, e, l, a);
  }

  /** `a` agrees with the binding `l` on the parameters it settles, and gives the others their types. */
  ghost predicate Opened(kb: Kb, q: Params, l: Vals, a: Vals)
    requires ParamsOk(q, |l|)
  {
    |a| == |l| && forall i :: 0 <= i < |q.slots| ==>
      if l[q.slots[i]] != Unbound then a[q.slots[i]] == l[q.slots[i]] else HasType(kb, a[q.slots[i]], q.types[i])
  }

  lemma WideningOpened(kb: Kb, q: Params, l: Vals, v: Vals, a: Vals)
    requires KbOk(kb) && ParamsOk(q, |l|) && Widening(kb, q, 0, l, v) && a == Fill(v)
    ensures Ext(a, l) && Row(q, a) == Row(q, v) && Opened(kb, q, l, a)
  {
    hide KbOk, HasType;
    forall i | 0 <= i < |q.slots|
      ensures v[q.slots[i]] != Unbound && (l[q.slots[i]] != Unbound ==> v[q.slots[i]] == l[q.slots[i]])
      ensures l[q.slots[i]] == Unbound ==> HasType(kb, v[q.slots[i]], q.types[i])
    {
      assert Filled(kb, l[q.slots[i]], q.types[i], v[q.slots[i]]);
      ExtensionMeans(kb, v[q.slots[i]], q.types[i]);
    }
    forall s: nat | s < |l|
      ensures l[s] != Unbound ==> v[s] == l[s]
    {
      if s in q.slots[0..] {
        var i :| 0 <= i < |q.slots| && q.slots[i] == s;
        assert Filled(kb, l[q.slots[i]], q.types[i], v[q.slots[i]]);
      }
    }
  }

  /** A row of the well-typed assignments a query is about. */
  ghost predicate Answer(kb: Kb, q: Params, e: Expr, val: Vals, row: Vals)
    requires ParamsOk(q, |val|) && SlotsOk(e, |val|)
  {
    exists a :: Meets(kb, e, val, a) && ParamsTyped(kb, q, a) && row == Row(q, a)
  }

  /** When the search does not give up, its results are exactly the answers if and only if no
      binding it can complete has settled a parameter on a value outside its type: a parameter the
      expression or the caller settles is not checked against its type. */
  lemma ResultsExact(kb: Kb, q: Params, e: Expr, val: Vals)
    requires KbOk(kb) && ParamsOk(q, |val|) && DistinctSlots(q) && SlotsOk(e, |val|) && Typed(e)
    requires !Leaves(kb, e, val).abort
    ensures (forall row :: row in Results(kb, q, e, val) <==> Answer(kb, q, e, val, row)) <==>
            (forall l <- Leaves(kb, e, val).leaves :: |l| == |val| && (Possible(kb, q, l) ==> SettledTyped(kb, q, l)))
  {
    hide Leaves, Typed, SlotsOk, Sat, KbOk, HasType, Ext, Possible, Results;
    var ls := Leaves(kb, e, val).leaves;
    forall row | Answer(kb, q, e, val, row)
      ensures row in Results(kb, q, e, val)
    {
      var a :| Meets(kb, e, val, a) && ParamsTyped(kb, q, a) && row == Row(q, a);
      ResultsComplete(kb, q, e, val, a);
    }
    if forall l <- ls :: |l| == |val| && (Possible(kb, q, l) ==> SettledTyped(kb, q, l)) {
      forall row | row in Results(kb, q, e, val)
        ensures Answer(kb, q, e, val, row)
      {
        ResultIsAnswer(kb, q, e, val, row);
      }
    }
    if forall row :: row in Results(kb, q, e, val) <==> Answer(kb, q, e, val, row) {
      forall l | l in ls
        ensures |l| == |val| && (Possible(kb, q, l) ==> SettledTyped(kb, q, l))
      {
        LeafLengths(kb, e, val, l);
        if Possible(kb, q, l) {
          AnswersSettle(kb, q, e, val, l);
        }
      }
    }
  }

  lemma LeafLengths(kb: Kb, e: Expr, val: Vals, l: Vals)
    requires SlotsOk(e, |val|) && l in Leaves(kb, e, val).leaves
    ensures |l| == |val|
  {
  }

  lemma ResultIsAnswer(kb: Kb, q: Params, e: Expr, val: Vals, row: Vals)
    requires KbOk(kb) && ParamsOk(q, |val|) && DistinctSlots(q) && SlotsOk(e, |val|) && Typed(e)
    requires row in Results(kb, q, e, val)
    requires forall l <- Leaves(kb, e, val).leaves :: |l| == |val| && (Possible(kb, q, l) ==> SettledTyped(kb, q, l))
    ensures Answer(kb, q, e, val, row)
  {
    hide Leaves, Typed, SlotsOk, Sat, KbOk, HasType, Ext;
    ResultsSound(kb, q, e, val, row);
    var l, a :| l in Leaves(kb, e, val).leaves && |l| == |val| && Meets(kb, e, val, a) && Row(q, a) ==
        row && Opened(kb, q, l, a);
    forall i | 0 <= i < |q.slots|
      ensures l[q.slots[i]] != Unbound || Extension(kb, q.types[i]) != []
    {
      ExtensionMeans(kb, a[q.slots[i]], q.types[i]);
    }
    assert ParamsTyped(kb, q, a);
  }

  lemma AnswersSettle(kb: Kb, q: Params, e: Expr, val: Vals, l: Vals)
    requires KbOk(kb) && ParamsOk(q, |val|) && DistinctSlots(q) && SlotsOk(e, |val|) && Typed(e)
    requires l in Leaves(kb, e, val).leaves && |l| == |val| && Possible(kb, q, l)
    requires forall row :: row in Results(kb, q, e, val) ==> Answer(kb, q, e, val, row)
    ensures SettledTyped(kb, q, l)
  {
    hide Leaves, Typed, SlotsOk, Sat, KbOk, HasType, Ext, Possible, Results;
    PossibleMeans(kb, q, l);
    var row := Widened(kb, q, 0, l)[0];
    assert row in Widened(kb, q, 0, l);
    ResultsDistinct(kb, q, e, val);
    WidenedSound(kb, q, 0, l, row);
    var v :| Widening(kb, q, 0, l, v) && row == Row(q, v);
    assert row in Results(kb, q, e, val);
    assert Answer(kb, q, e, val, row);
    var a :| Meets(kb, e, val, a) && ParamsTyped(kb, q, a) && row == Row(q, a);
    forall i | 0 <= i < |q.slots|
      ensures l[q.slots[i]] == Unbound || HasType(kb, l[q.slots[i]], q.types[i])
    {
      assert Filled(kb, l[q.slots[i]], q.types[i], v[q.slots[i]]);
      assert row[i] == a[q.slots[i]] == v[q.slots[i]];
    }
  }

  // ----- Is there any? -----

  /** `ask_any` finds a result exactly when `ask` does, and gives up only where `ask` does. */
  lemma AnyAgrees(kb: Kb, q: Params, e: Expr, val: Vals)
    requires ParamsOk(q, |val|) && DistinctSlots(q) && SlotsOk(e, |val|)
    ensures var o := Leaves(kb, e, val);
      var all, one := Feed(kb, q, o, |val|, Collect, START), Feed(kb, q, o, |val|, Any, START);
      all.found == Results(kb, q, e, val) && all.abort == o.abort &&
      (one.any <==> Results(kb, q, e, val) != []) && (one.abort <==> o.abort && !one.any)
  {
    hide Leaves, Widened, Possible, Feed;
    var o := Leaves(kb, e, val);
    FeedCollect(kb, q, o, |val|, START);
    FeedAny(kb, q, o, |val|, START);
    ResultsDistinct(kb, q, e, val);
    forall l | l in o.leaves
      ensures Possible(kb, q, l) <==> Widened(kb, q, 0, l) != []
    {
      PossibleMeans(kb, q, l);
    }
    if l :| l in o.leaves && Possible(kb, q, l) {
      assert Widened(kb, q, 0, l)[0] in Widened(kb, q, 0, l);
      assert Widened(kb, q, 0, l)[0] in Results(kb, q, e, val);
    }
    if Results(kb, q, e, val) != [] {
      assert Results(kb, q, e, val)[0] in Results(kb, q, e, val);
    }
  }

  // ----- What values a search can settle on -----

  ghost predicate AllMeet(good: (nat, Val) -> bool, val: Vals) {
    forall s: nat :: s < |val| ==> val[s] == Unbound || good(s, val[s])
  }

  /** A condition on the facts and the constants: whatever an atom or an equality of `e` can give a
      variable is good for it. */
  ghost predicate Admits(kb: Kb, e: Expr, good: (nat, Val) -> bool) {
    match e
    case Atom(p, args) => p in kb.rels && kb.rels[p].arity == |args| ==>
      forall i, t :: 0 <= i < |args| && args[i].Var? && t in kb.rels[p].tuples && i < |t| ==>
          good(args[i].slot, Obj(t[i]))
    case Compare(equals, l, r) => equals ==>
      && (l.Var? && r.Const? ==> good(l.slot, Resolve(kb, r.name)))
      && (l.Const? && r.Var? ==> good(r.slot, Resolve(kb, l.name)))
      && (l.Var? && r.Var? ==> forall v :: good(l.slot, v) <==> good(r.slot, v))
    case And(cs) => forall i :: 0 <= i < |cs| ==> Admits(kb, cs[i], good)
    case Or(cs) => forall i :: 0 <= i < |cs| ==> Admits(kb, cs[i], good)
    case _ => true
  }

  ghost predicate AllGood(good: (nat, Val) -> bool, ls: seq<Vals>) {
    forall l <- ls :: AllMeet(good, l)
  }

  lemma AtomAdmits(kb: Kb, e: Expr, good: (nat, Val) -> bool, val: Vals)
    requires KbOk(kb) && e.Atom? && SlotsOk(e, |val|) && Admits(kb, e, good) && AllMeet(good, val)
    ensures AllGood(good, Leaves(kb, e, val).leaves)
  {
    forall l | l in AtomLeaves(kb, e.pred, e.args, val)
      ensures AllMeet(good, l)
    {
      if e.args != [] {
        var ts := kb.rels[e.pred].tuples;
        MatchSound(kb, e.args, val, ts, l);
        var t :| t in ts && Fits(kb, e.args, val, t) && l == Take(e.args, val, t, |e.args|);
        TakeMeans(kb, e.args, val, t);
        forall s: nat | s < |l|
          ensures l[s] == Unbound || good(s, l[s])
        {
          if s in ArgSlots(e.args) {
            var i :| 0 <= i < |e.args| && e.args[i].Var? && e.args[i].slot == s;
            assert Value(kb, e.args[i], l) == Obj(t[i]);
          }
        }
      }
    }
  }

  lemma {:induction false} AndAdmits(kb: Kb, e: Expr, pos: nat, good: (nat, Val) -> bool, val: Vals)
    requires e.And? && SlotsOk(e, |val|) && pos <= 2 * |e.children| && AllMeet(good, val)
    requires forall i, v: Vals :: 0 <= i < |e.children| && |v| == |val| && AllMeet(good, v) ==>
      AllGood(good, Leaves(kb, e.children[i], v).leaves)
    ensures AllGood(good, AndLeaves(kb, e, pos, val).leaves)
    decreases 2 * |e.children| - pos, 0
  {
    hide Leaves, AllMeet, Skipped;
    if pos < 2 * |e.children| {
      if Skipped(e.children, pos) {
        AndAdmits(kb, e, pos + 1, good, val);
      } else {
        AndOfAdmits(kb, e, pos + 1, good, |val|, Leaves(kb, ChildAt(e.children, pos), val));
      }
    }
  }

  lemma {:induction false} AndOfAdmits(kb: Kb, e: Expr, pos: nat, good: (nat, Val) -> bool, n: nat, o: Out)
    requires e.And? && SlotsOk(e, n) && pos <= 2 * |e.children| && (forall l <- o.leaves :: |l| == n)
    requires AllGood(good, o.leaves)
    requires forall i, v: Vals :: 0 <= i < |e.children| && |v| == n && AllMeet(good, v) ==>
      AllGood(good, Leaves(kb, e.children[i], v).leaves)
    ensures AllGood(good, AndLeavesOf(kb, e, pos, n, o).leaves)
    decreases 2 * |e.children| - pos, 1 + |o.leaves|
  {
    hide Leaves, AllMeet, AndLeaves;
    if o.leaves != [] {
      AndAdmits(kb, e, pos, good, o.leaves[0]);
      AndOfAdmits(kb, e, pos, good, n, Out(o.leaves[1..], o.abort));
    }
  }

  lemma {:induction false} OrAdmits(kb: Kb, e: Expr, pos: nat, good: (nat, Val) -> bool, val: Vals)
    requires e.Or? && SlotsOk(e, |val|) && pos <= |e.children| && AllMeet(good, val)
    requires forall i :: 0 <= i < |e.children| ==> AllGood(good, Leaves(kb, e.children[i], val).leaves)
    ensures AllGood(good, OrLeaves(kb, e, pos, val).leaves)
    decreases |e.children| - pos
  {
    hide Leaves, AllMeet;
    if pos < |e.children| {
      OrAdmits(kb, e, pos + 1, good, val);
    }
  }

  /** If the facts and constants admit only good values, a search settles only on good values. */
  lemma {:induction false} LeavesAdmit(kb: Kb, e: Expr, good: (nat, Val) -> bool, val: Vals)
    requires KbOk(kb) && SlotsOk(e, |val|) && Admits(kb, e, good) && AllMeet(good, val)
    ensures AllGood(good, Leaves(kb, e, val).leaves)
    decreases e
  {
    match e
    case Absent =>
    case Atom(_, _) => AtomAdmits(kb, e, good, val);
    case Compare(_, _, _) =>
    case Not(_) =>
    case Imply(_, _) =>
    case Quant(_, _, _) =>
    case And(cs) =>
      forall i, v: Vals | 0 <= i < |cs| && |v| == |val| && AllMeet(good, v)
        ensures AllGood(good, Leaves(kb, cs[i], v).leaves)
      {
        LeavesAdmit(kb, cs[i], good, v);
      }
      AndAdmits(kb, e, 0, good, val);
    case Or(cs) =>
      forall i | 0 <= i < |cs|
        ensures AllGood(good, Leaves(kb, cs[i], val).leaves)
      {
        LeavesAdmit(kb, cs[i], good, val);
      }
      OrAdmits(kb, e, 0, good, val);
  }

  /** A parameter's value has the parameter's type. */
  ghost function HasParamType(kb: Kb, q: Params): (nat, Val) -> bool
    requires |q.slots| == |q.types|
  {
    (s: nat, v: Val) => forall i :: 0 <= i < |q.slots| && q.slots[i] == s ==> HasType(kb, v, q.types[i])
  }

  /** With every pinned parameter of its type, and facts and constants that only give parameters
      values of their types, every result is an answer, whether the search gives up or not. */
  lemma ResultsAnswerWhenTyped(kb: Kb, q: Params, e: Expr, val: Vals)
    requires KbOk(kb) && ParamsOk(q, |val|) && DistinctSlots(q) && SlotsOk(e, |val|) && Typed(e)
    requires SettledTyped(kb, q, val) && Admits(kb, e, HasParamType(kb, q))
    ensures forall row :: row in Results(kb, q, e, val) ==> Answer(kb, q, e, val, row)
  {
    hide Leaves, Typed, SlotsOk, KbOk, HasType, Possible, Results, Admits, Answer;
    var good := HasParamType(kb, q);
    forall s: nat | s < |val| && val[s] != Unbound
      ensures good(s, val[s])
    {
    }
    LeavesAdmit(kb, e, good, val);
    forall l | l in Leaves(kb, e, val).leaves
      ensures |l| == |val| && SettledTyped(kb, q, l)
    {
      LeafLengths(kb, e, val, l);
      assert AllMeet(good, l);
    }
    forall row | row in Results(kb, q, e, val)
      ensures Answer(kb, q, e, val, row)
    {
      ResultIsAnswer(kb, q, e, val, row);
    }
  }

  /** And when it does not, the results are exactly the answers. */
  lemma ResultsExactWhenTyped(kb: Kb, q: Params, e: Expr, val: Vals)
    requires KbOk(kb) && ParamsOk(q, |val|) && DistinctSlots(q) && SlotsOk(e, |val|) && Typed(e)
    requires !Leaves(kb, e, val).abort && SettledTyped(kb, q, val) && Admits(kb, e, HasParamType(kb, q))
    ensures forall row :: row in Results(kb, q, e, val) <==> Answer(kb, q, e, val, row)
  {
    hide Leaves, Typed, SlotsOk, KbOk, Results, Admits, SettledTyped, Answer;
    ResultsAnswerWhenTyped(kb, q, e, val);
    forall row | Answer(kb, q, e, val, row)
      ensures row in Results(kb, q, e, val)
    {
      AnswerIsResult(kb, q, e, val, row);
    }
  }

  ghost predicate Unanswered(kb: Kb, q: Params, val: Vals)
    requires ParamsOk(q, |val|)
  {
    Results(kb, q, Absent, val) == [[Obj(0)]] && forall row :: !Answer(kb, q, Absent, val, row)
  }

  lemma OneResult(kb: Kb, q: Params, val: Vals)
    requires ParamsOk(q, |val|) && q.slots == [0] && |val| == 1 && val[0] != Unbound
    ensures Results(kb, q, Absent, val) == [val]
  {
    hide Extension, Possible;
    assert Row(q, val) == val;
    assert Widened(kb, q, 0, val) == Widened(kb, q, 1, val) == [val];
    assert [val][1..] == [];
    assert AllWidened(kb, q, 1, [val]) == [val] + AllWidened(kb, q, 1, []) == [val];
    assert AddAll([], [val]) == AddAll([val], [val][1..]) == [val];
  }

  /** A pinned value outside its parameter's type is answered all the same: a fact base with one
      object, a type it is not of, and a query that pins it. */
  lemma PinnedOutsideItsType()
    ensures exists kb: Kb, q: Params, val: Vals ::
        KbOk(kb) && ParamsOk(q, |val|) && DistinctSlots(q) && Unanswered(kb, q, val)
  {
    hide Results, KbOk, DistinctSlots, Answer, ParamsOk;
    var kb := Kb(map["t" := Rel(1, [])], map["o" := 0], ["o"]);
    var q, val := Params([0], ["t"]), [Obj(0)];
    SmallBase(kb, q);
    OneResult(kb, q, val);
    forall row
      ensures !Answer(kb, q, Absent, val, row)
    {
      NoAnswer(kb, q, val, row);
    }
  }

  lemma SmallBase(kb: Kb, q: Params)
    requires kb == Kb(map["t" := Rel(1, [])], map["o" := 0], ["o"]) && q == Params([0], ["t"])
    ensures KbOk(kb) && ParamsOk(q, 1) && DistinctSlots(q)
  {
  }

  lemma NoAnswer(kb: Kb, q: Params, val: Vals, row: Vals)
    requires ParamsOk(q, |val|) && |q.slots| == 1 && q.types[0] in kb.rels && kb.rels[q.types[0]].tuples == []
    ensures !Answer(kb, q, Absent, val, row)
  {
    forall a: Vals | |a| == |val|
      ensures !ParamsTyped(kb, q, a)
    {
      assert !HasType(kb, a[q.slots[0]], q.types[0]);
    }
  }

  // ----- Queries by name -----

  /** A query: an expression with its variables' names by slot, the parameters asked about with
      their types, and what the caller pins. */
  datatype Query = Query(e: Expr, names: seq<string>, params: seq<(string, string)>, fixed: seq<(string, string)>)

  ghost predicate QueryOk(y: Query) {
    && SlotsOk(y.e, |y.names|) && Typed(y.e) && Distinct(y.names)
    && forall i, j :: 0 <= i < j < |y.params| ==> y.params[i].0 != y.params[j].0
  }

  /** Is the expression one the evaluator takes? */
  predicate Supported(e: Expr) {
    match e
    case Not(c) => Supported(c)
    case And(cs) => forall i :: 0 <= i < |cs| ==> Supported(cs[i])
    case Or(cs) => forall i :: 0 <= i < |cs| ==> Supported(cs[i])
    case Imply(_, _) => false
    case Quant(_, bound, body) => Supported(body) && bound != [] && !body.Absent?
    case _ => true
  }

  function SlotOf(ns: seq<string>, name: string): (r: B.Option<nat>)
    ensures r.Some? ==> r.value < |ns| && ns[r.value] == name
    ensures r.None? <==> name !in ns
  {
    if ns == [] then B.None
    else if ns[0] == name then B.Some(0)
    else
      var r := SlotOf(ns[1..], name);
      if r.None? then B.None else B.Some(r.value + 1)
  }

  /** The names by slot: the expression's variables, then the parameters it does not mention. */
  function SlotNames(names: seq<string>, params: seq<(string, string)>): (ns: seq<string>)
    ensures names <= ns && forall i :: 0 <= i < |params| ==> params[i].0 in ns
    ensures Distinct(names) ==> Distinct(ns)
    decreases |params|
  {
    if params == [] then names
    else
      var ns := SlotNames(if params[0].0 in names then names else names + [params[0].0], params[1..]);
      assert params[0].0 in ns by {
        var next := if params[0].0 in names then names else names + [params[0].0];
        var i :| 0 <= i < |next| && next[i] == params[0].0;
        assert ns[i] == next[i];
      }
      ns
  }

  function Asked(y: Query): (q: Params)
    ensures ParamsOk(q, |SlotNames(y.names, y.params)|)
    ensures |q.slots| == |y.params|
    ensures forall i :: 0 <= i < |q.slots| ==>
      q.types[i] == y.params[i].1 && SlotNames(y.names, y.params)[q.slots[i]] == y.params[i].0
  {
    var ns := SlotNames(y.names, y.params);
    Params(seq(|y.params|, i requires 0 <= i < |y.params| => SlotOf(ns, y.params[i].0).value),
           seq(|y.params|, i requires 0 <= i < |y.params| => y.params[i].1))
  }

  /** Does pinning a name to a value pin it? A name that stands for itself, and is no object, does not. */
  predicate Pins(kb: Kb, name: string, value: string) {
    name != value || value in kb.ids
  }

  function Pinned(kb: Kb, ns: seq<string>, fixed: seq<(string, string)>, val: Vals): (r: Vals)
    requires |val| == |ns|
    ensures |r| == |val|
    decreases |fixed|
  {
    if fixed == [] then val
    else
      var slot := SlotOf(ns, fixed[0].0);
      Pinned(kb, ns, fixed[1..], if slot.Some? &&
          Pins(kb, fixed[0].0, fixed[0].1) then val[slot.value := Resolve(kb, fixed[0].1)] else val)
  }

  /** A constant pinned to something else: the query has no answer. */
  predicate Refused(kb: Kb, ns: seq<string>, fixed: seq<(string, string)>) {
    exists i :: 0 <= i < |fixed| && SlotOf(ns, fixed[i].0).None? && fixed[i].0 in kb.ids && fixed[i].0 != fixed[i].1
  }

  function Nothing(n: nat): Vals {
    seq(n, i requires 0 <= i < n => Unbound)
  }

  /** Where a query's search starts. */
  function Begin(kb: Kb, y: Query): (val: Vals)
    ensures |val| == |SlotNames(y.names, y.params)|
  {
    var ns := SlotNames(y.names, y.params);
    Pinned(kb, ns, y.fixed, Nothing(|ns|))
  }

  /** A value that can be named: an object, or a text that names none. */
  predicate Proper(kb: Kb, v: Val) {
    (v.Obj? && v.id < |kb.names|) || (v.Text? && v.text !in kb.ids)
  }

  function NameOf(kb: Kb, v: Val): string
    requires Proper(kb, v)
  {
    if v.Obj? then kb.names[v.id] else v.text
  }

  predicate ProperRow(kb: Kb, row: Vals) {
    forall v <- row :: Proper(kb, v)
  }

  function Named(kb: Kb, row: Vals): seq<string>
    requires ProperRow(kb, row)
  {
    seq(|row|, i requires 0 <= i < |row| => NameOf(kb, row[i]))
  }

  /** Names tell proper values apart. */
  lemma NamedApart(kb: Kb, x: Vals, y: Vals)
    requires KbOk(kb) && ProperRow(kb, x) && ProperRow(kb, y) && Named(kb, x) == Named(kb, y)
    ensures x == y
  {
    assert |x| == |Named(kb, x)| == |y|;
    forall i | 0 <= i < |x|
      ensures x[i] == y[i]
    {
      assert Named(kb, x)[i] == Named(kb, y)[i];
      assert Proper(kb, x[i]) && Proper(kb, y[i]);
    }
  }

  lemma {:induction false} MoreSlots(e: Expr, n: nat, m: nat)
    requires SlotsOk(e, n) && n <= m
    ensures SlotsOk(e, m)
  {
    match e
    case Not(c) => MoreSlots(c, n, m);
    case And(cs) =>
      forall i | 0 <= i < |cs|
        ensures SlotsOk(cs[i], m)
      {
        MoreSlots(cs[i], n, m);
      }
    case Or(cs) =>
      forall i | 0 <= i < |cs|
        ensures SlotsOk(cs[i], m)
      {
        MoreSlots(cs[i], n, m);
      }
    case Imply(x, y) =>
      MoreSlots(x, n, m);
      MoreSlots(y, n, m);
    case Quant(_, _, body) => MoreSlots(body, n, m);
    case _ =>
  }

  /** A query as the search sees it. */
  lemma QueryMeans(kb: Kb, y: Query)
    requires QueryOk(y)
    ensures SlotsOk(y.e, |Begin(kb, y)|) && ParamsOk(Asked(y), |Begin(kb, y)|) && DistinctSlots(Asked(y))
  {
    var ns := SlotNames(y.names, y.params);
    MoreSlots(y.e, |y.names|, |ns|);
    var q := Asked(y);
    forall i, j | 0 <= i < j < |q.slots|
      ensures q.slots[i] != q.slots[j]
    {
      assert ns[q.slots[i]] == y.params[i].0 && ns[q.slots[j]] == y.params[j].0;
    }
  }

  ghost function IsProper(kb: Kb): (nat, Val) -> bool {
    (s: nat, v: Val) => Proper(kb, v)
  }

  lemma {:induction false} PinnedProper(kb: Kb, ns: seq<string>, fixed: seq<(string, string)>, val: Vals)
    requires KbOk(kb) && |val| == |ns| && AllMeet(IsProper(kb), val)
    ensures AllMeet(IsProper(kb), Pinned(kb, ns, fixed, val))
    decreases |fixed|
  {
    if fixed != [] {
      var slot := SlotOf(ns, fixed[0].0);
      PinnedProper(kb, ns, fixed[1..], if slot.Some? &&
          Pins(kb, fixed[0].0, fixed[0].1) then val[slot.value := Resolve(kb, fixed[0].1)] else val);
    }
  }

  lemma {:induction false} AdmitsProper(kb: Kb, e: Expr)
    requires KbOk(kb)
    ensures Admits(kb, e, IsProper(kb))
  {
    match e
    case Atom(p, args) =>
      if p in kb.rels {
        assert forall t <- kb.rels[p].tuples :: TupleOk(kb, kb.rels[p].arity, t);
      }
    case And(cs) =>
      forall i | 0 <= i < |cs|
        ensures Admits(kb, cs[i], IsProper(kb))
      {
        AdmitsProper(kb, cs[i]);
      }
    case Or(cs) =>
      forall i | 0 <= i < |cs|
        ensures Admits(kb, cs[i], IsProper(kb))
      {
        AdmitsProper(kb, cs[i]);
      }
    case _ =>
  }

  /** Every result can be named: none is left unbound. */
  lemma ResultsProper(kb: Kb, y: Query)
    requires KbOk(kb) && QueryOk(y) && SlotsOk(y.e, |Begin(kb, y)|) && ParamsOk(Asked(y), |Begin(kb, y)|)
    requires DistinctSlots(Asked(y))
    ensures forall row <- Results(kb, Asked(y), y.e, Begin(kb, y)) :: ProperRow(kb, row)
  {
    hide Leaves, Typed, SlotsOk, Sat, KbOk, HasType, Results, Admits, Asked, Begin;
    var q, val := Asked(y), Begin(kb, y);
    BeginProper(kb, y);
    AdmitsProper(kb, y.e);
    LeavesAdmit(kb, y.e, IsProper(kb), val);
    ResultsDistinct(kb, q, y.e, val);
    forall row | row in Results(kb, q, y.e, val)
      ensures ProperRow(kb, row)
    {
      var l :| l in Leaves(kb, y.e, val).leaves && row in Widened(kb, q, 0, l);
      LeafLengths(kb, y.e, val, l);
      WidenedSound(kb, q, 0, l, row);
      var v :| Widening(kb, q, 0, l, v) && row == Row(q, v);
      WideningProper(kb, q, l, v);
    }
  }

  lemma BeginProper(kb: Kb, y: Query)
    requires KbOk(kb)
    ensures AllMeet(IsProper(kb), Begin(kb, y))
  {
    var ns := SlotNames(y.names, y.params);
    PinnedProper(kb, ns, y.fixed, Nothing(|ns|));
  }

  lemma WideningProper(kb: Kb, q: Params, l: Vals, v: Vals)
    requires KbOk(kb) && ParamsOk(q, |l|) && AllMeet(IsProper(kb), l) && Widening(kb, q, 0, l, v)
    ensures ProperRow(kb, Row(q, v))
  {
    hide KbOk;
    forall i | 0 <= i < |q.slots|
      ensures Proper(kb, v[q.slots[i]])
    {
      assert Filled(kb, l[q.slots[i]], q.types[i], v[q.slots[i]]);
      ExtensionMeans(kb, v[q.slots[i]], q.types[i]);
    }
  }

  // ----- Answering -----

  datatype Reply = Declined | Rows(rows: seq<seq<string>>)

  /** Sets up a search: the binding array, with what the caller pins. */
  method Prepare(kb: Kb, y: Query) returns (val: Vals, none: bool)
    ensures val == Begin(kb, y) && none == Refused(kb, SlotNames(y.names, y.params), y.fixed)
  {
    var ns := SlotNames(y.names, y.params);
    val, none := Nothing(|ns|), false;
    assert y.fixed[0..] == y.fixed;
    for i := 0 to |y.fixed|
      invariant |val| == |ns| && Pinned(kb, ns, y.fixed[i..], val) == Begin(kb, y)
      invariant none <==> exists j ::
          0 <= j < i && SlotOf(ns, y.fixed[j].0).None? && y.fixed[j].0 in kb.ids && y.fixed[j].0 != y.fixed[j].1
    {
      var name, value := y.fixed[i].0, y.fixed[i].1;
      assert y.fixed[i..][0] == y.fixed[i] && y.fixed[i..][1..] == y.fixed[i + 1..];
      var slot := SlotOf(ns, name);
      if slot.None? {
        if name in kb.ids && name != value {
          none := true;
        }
      } else if Pins(kb, name, value) {
        val := val[slot.value := Resolve(kb, value)];
      }
    }
  }

  /** What `ask` says of a query: nothing when the expression is not one it takes or the search gives
      up; otherwise the named results, in the order they are found. */
  ghost predicate Replied(kb: Kb, y: Query, r: Reply)
    requires KbOk(kb) && QueryOk(y)
  {
    QueryMeans(kb, y);
    ResultsProper(kb, y);
    var rows := Results(kb, Asked(y), y.e, Begin(kb, y));
    var refused := Refused(kb, SlotNames(y.names, y.params), y.fixed);
    && (r.Declined? <==> !Supported(y.e) || (!refused && Leaves(kb, y.e, Begin(kb, y)).abort))
    && (r.Rows? && refused ==> r.rows == [])
    && (r.Rows? && !refused ==> r.rows == seq(|rows|, i requires 0 <= i < |rows| => Named(kb, rows[i])))
  }

  method Ask(kb: Kb, y: Query) returns (r: Reply)
    requires KbOk(kb) && QueryOk(y)
    ensures Replied(kb, y, r)
  {
    hide Leaves, SlotsOk, Typed, KbOk, Widened, Feed;
    QueryMeans(kb, y);
    ResultsProper(kb, y);
    if !Supported(y.e) {
      return Declined;
    }
    var val, none := Prepare(kb, y);
    if none {
      return Rows([]);
    }
    var s := new Search(kb, Asked(y), val);
    AnyAgrees(kb, Asked(y), y.e, val);
    s.Solve(y.e, Collect);
    if s.abort {
      return Declined;
    }
    assert s.found == Results(kb, Asked(y), y.e, val);
    var found := s.found;
    return Rows(seq(|found|, i requires 0 <= i < |found| => Named(kb, found[i])));
  }

  /** What `ask_any` says of a query. */
  ghost predicate RepliedAny(kb: Kb, y: Query, r: B.Option<bool>)
    requires KbOk(kb) && QueryOk(y)
  {
    QueryMeans(kb, y);
    var rows := Results(kb, Asked(y), y.e, Begin(kb, y));
    r == if !Supported(y.e) then B.None
         else if Refused(kb, SlotNames(y.names, y.params), y.fixed) then B.Some(false)
         else if rows != [] then B.Some(true)
         else if Leaves(kb, y.e, Begin(kb, y)).abort then B.None
         else B.Some(false)
  }

  /** `ask_any`: whether there is a result at all, from the first one found. */
  method AskAny(kb: Kb, y: Query) returns (r: B.Option<bool>)
    requires KbOk(kb) && QueryOk(y)
    ensures RepliedAny(kb, y, r)
  {
    hide Leaves, SlotsOk, Typed, KbOk, Widened, Feed;
    QueryMeans(kb, y);
    if !Supported(y.e) {
      return B.None;
    }
    var val, none := Prepare(kb, y);
    if none {
      return B.Some(false);
    }
    var s := new Search(kb, Asked(y), val);
    AnyAgrees(kb, Asked(y), y.e, val);
    s.Solve(y.e, Any);
    if s.abort && !s.any {
      return B.None;
    }
    return B.Some(s.any);
  }

  /** A row of names that answers a query as the search has it. */
  ghost predicate Answering(kb: Kb, y: Query, row: seq<string>)
    requires KbOk(kb) && QueryOk(y)
  {
    QueryMeans(kb, y);
    exists vals :: Answer(kb, Asked(y), y.e, Begin(kb, y), vals) && ProperRow(kb, vals) && row == Named(kb, vals)
  }

  /** Where the search starts, and what it can settle on, is of the parameters' types. */
  ghost predicate SearchTyped(kb: Kb, y: Query)
    requires KbOk(kb) && QueryOk(y)
  {
    QueryMeans(kb, y);
    SettledTyped(kb, Asked(y), Begin(kb, y)) && Admits(kb, y.e, HasParamType(kb, Asked(y)))
  }

  /** The rows of `ask` in these terms. */
  lemma RowsAnswer(kb: Kb, y: Query, r: Reply)
    requires KbOk(kb) && QueryOk(y) && Replied(kb, y, r) && r.Rows?
    requires !Refused(kb, SlotNames(y.names, y.params), y.fixed)
    ensures Distinct(r.rows)
    ensures forall row :: Answering(kb, y, row) ==> row in r.rows
    ensures SearchTyped(kb, y) ==> forall row :: row in r.rows ==> Answering(kb, y, row)
  {
    hide Leaves, SlotsOk, Typed, KbOk, Widened, Results, Asked, Begin, Admits, SettledTyped, HasParamType, Answer,
         ParamsTyped, DistinctSlots;
    QueryMeans(kb, y);
    ResultsProper(kb, y);
    var q, val := Asked(y), Begin(kb, y);
    var rows := Results(kb, q, y.e, val);
    ResultsDistinct(kb, q, y.e, val);
    forall i, j | 0 <= i < j < |rows|
      ensures Named(kb, rows[i]) != Named(kb, rows[j])
    {
      if Named(kb, rows[i]) == Named(kb, rows[j]) {
        NamedApart(kb, rows[i], rows[j]);
      }
    }
    forall row | Answering(kb, y, row)
      ensures row in r.rows
    {
      var vals :| Answer(kb, q, y.e, val, vals) && ProperRow(kb, vals) && row == Named(kb, vals);
      AnswerIsResult(kb, q, y.e, val, vals);
      var i :| 0 <= i < |rows| && rows[i] == vals;
      assert r.rows[i] == row;
    }
    if SearchTyped(kb, y) {
      ResultsExactWhenTyped(kb, q, y.e, val);
      forall row | row in r.rows
        ensures Answering(kb, y, row)
      {
        var i :| 0 <= i < |r.rows| && r.rows[i] == row;
        assert rows[i] in rows;
      }
    }
  }

  /** And the reply of `ask_any`. */
  lemma AnyAnswers(kb: Kb, y: Query, r: B.Option<bool>)
    requires KbOk(kb) && QueryOk(y) && RepliedAny(kb, y, r) && !Refused(kb, SlotNames(y.names, y.params), y.fixed)
    ensures r == B.Some(false) ==> forall row :: !Answering(kb, y, row)
    ensures r == B.Some(true) && SearchTyped(kb, y) ==> exists row :: Answering(kb, y, row)
    ensures r.Some? && SearchTyped(kb, y) ==> (r.value <==> exists row :: Answering(kb, y, row))
  {
    hide Leaves, SlotsOk, Typed, KbOk, Widened, Results, Asked, Begin, Admits, SettledTyped, HasParamType, Answer,
         ParamsTyped, DistinctSlots;
    QueryMeans(kb, y);
    ResultsProper(kb, y);
    var q, val := Asked(y), Begin(kb, y);
    var rows := Results(kb, q, y.e, val);
    if r == B.Some(false) {
      assert rows == [];
      forall row
        ensures !Answering(kb, y, row)
      {
        if Answering(kb, y, row) {
          var vals :| Answer(kb, q, y.e, val, vals) && ProperRow(kb, vals) && row == Named(kb, vals);
          AnswerIsResult(kb, q, y.e, val, vals);
        }
      }
    }
    if r == B.Some(true) && SearchTyped(kb, y) {
      ResultsAnswerWhenTyped(kb, q, y.e, val);
      assert rows[0] in rows;
      assert Answering(kb, y, Named(kb, rows[0]));
    }
  }

  lemma AnswerIsResult(kb: Kb, q: Params, e: Expr, val: Vals, row: Vals)
    requires KbOk(kb) && ParamsOk(q, |val|) && DistinctSlots(q) && SlotsOk(e, |val|) && Typed(e)
    requires !Leaves(kb, e, val).abort && Answer(kb, q, e, val, row)
    ensures row in Results(kb, q, e, val)
  {
    hide Leaves, SlotsOk, Typed, KbOk, Results, ParamsTyped, Sat;
    var a :| Meets(kb, e, val, a) && ParamsTyped(kb, q, a) && row == Row(q, a);
    ResultsComplete(kb, q, e, val, a);
  }
}
