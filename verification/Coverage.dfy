/** The bindings the evaluator enumerates cover exactly the assignments that satisfy the expression
    (lib/evaluator.h): every extension of one satisfies it, and unless the search gave up every
    satisfying assignment extends one. */
module Coverage {
  import opened Queries
  import opened Enumeration

  ghost predicate LeafSound(kb: Kb, e: Expr, l: Vals)
    requires SlotsOk(e, |l|)
  {
    forall a: Vals :: |a| == |l| && Ext(a, l) ==> Sat(kb, e, a)
  }

  ghost predicate Sound(kb: Kb, e: Expr, val: Vals, ls: seq<Vals>)
    requires SlotsOk(e, |val|)
  {
    forall l <- ls :: |l| == |val| && Grows(l, val) && LeafSound(kb, e, l)
  }

  ghost predicate Reached(ls: seq<Vals>, a: Vals) {
    exists l :: l in ls && Ext(a, l)
  }

  ghost predicate Complete(kb: Kb, e: Expr, val: Vals, ls: seq<Vals>)
    requires SlotsOk(e, |val|)
  {
    forall a: Vals :: |a| == |val| && Ext(a, val) && Sat(kb, e, a) ==> Reached(ls, a)
  }

  ghost predicate Covers(kb: Kb, e: Expr, val: Vals, o: Out)
    requires SlotsOk(e, |val|)
  {
    Sound(kb, e, val, o.leaves) && (!o.abort ==> Complete(kb, e, val, o.leaves))
  }

  // ----- Atoms and equalities -----

  lemma CoversAtom(kb: Kb, e: Expr, val: Vals)
    requires e.Atom? && SlotsOk(e, |val|)
    ensures Covers(kb, e, val, Leaves(kb, e, val))
  {
    forall l | l in AtomLeaves(kb, e.pred, e.args, val)
      ensures Grows(l, val) && LeafSound(kb, e, l)
    {
      AtomSound(kb, e.pred, e.args, val, l);
    }
    forall a: Vals | |a| == |val| && Ext(a, val) && Sat(kb, e, a)
      ensures Reached(AtomLeaves(kb, e.pred, e.args, val), a)
    {
      AtomComplete(kb, e.pred, e.args, val, a);
    }
  }

  lemma CoversCompare(kb: Kb, e: Expr, val: Vals)
    requires e.Compare? && SlotsOk(e, |val|)
    ensures Covers(kb, e, val, Leaves(kb, e, val))
  {
    var o := CompareLeaves(kb, e.equals, e.left, e.right, val);
    forall a: Vals | |a| == |val| && Ext(a, val) && Sat(kb, e, a) && !o.abort
      ensures Reached(o.leaves, a)
    {
      assert o.leaves != [] && Ext(a, o.leaves[0]);
    }
  }

  // ----- Disjunction -----

  /** Some child from `pos` on is satisfied. */
  ghost predicate SomeFrom(kb: Kb, e: Expr, pos: nat, a: Vals)
    requires e.Or? && SlotsOk(e, |a|)
  {
    exists i :: pos <= i < |e.children| && Sat(kb, e.children[i], a)
  }

  lemma {:induction false} CoversOr(kb: Kb, e: Expr, pos: nat, val: Vals)
    requires e.Or? && SlotsOk(e, |val|) && pos <= |e.children|
    requires forall i, v: Vals :: pos <= i < |e.children| && |v| == |val| ==>
      Covers(kb, e.children[i], v, Leaves(kb, e.children[i], v))
    ensures var o := OrLeaves(kb, e, pos, val); Sound(kb, e, val, o.leaves)
    ensures var o := OrLeaves(kb, e, pos, val); !o.abort ==>
      forall a: Vals :: |a| == |val| && Ext(a, val) && SomeFrom(kb, e, pos, a) ==> Reached(o.leaves, a)
    decreases |e.children| - pos
  {
    if pos < |e.children| {
      CoversOr(kb, e, pos + 1, val);
      var c := e.children[pos];
      var first, rest := Leaves(kb, c, val), OrLeaves(kb, e, pos + 1, val);
      assert Covers(kb, c, val, first);
      forall l | l in first.leaves
        ensures |l| == |val| && LeafSound(kb, e, l)
      {
        assert LeafSound(kb, c, l);
      }
      forall a: Vals | |a| == |val| && Ext(a, val) && SomeFrom(kb, e, pos, a) && !first.abort && !rest.abort
        ensures Reached(first.leaves + rest.leaves, a)
      {
        if Sat(kb, c, a) {
          assert Reached(first.leaves, a);
        } else {
          assert SomeFrom(kb, e, pos + 1, a);
          assert Reached(rest.leaves, a);
        }
      }
    }
  }

  // ----- Conjunction -----

  /** The children still to be taken at `pos` are satisfied. */
  ghost predicate AllFrom(kb: Kb, e: Expr, pos: nat, a: Vals)
    requires e.And? && SlotsOk(e, |a|)
  {
    forall p :: pos <= p < 2 * |e.children| && !Skipped(e.children, p) ==> Sat(kb, ChildAt(e.children, p), a)
  }

  lemma AllFromStart(kb: Kb, e: Expr, a: Vals)
    requires e.And? && SlotsOk(e, |a|)
    ensures AllFrom(kb, e, 0, a) <==> Sat(kb, e, a)
  {
    var cs := e.children;
    if AllFrom(kb, e, 0, a) {
      forall i | 0 <= i < |cs|
        ensures Sat(kb, cs[i], a)
      {
        var p := if Binds(cs[i]) then i else i + |cs|;
        assert !Skipped(cs, p) && ChildAt(cs, p) == cs[i];
      }
    }
  }

  /** What holds of the bindings of the conjuncts from `pos` on. */
  ghost predicate AndCovers(kb: Kb, e: Expr, pos: nat, val: Vals, o: Out)
    requires e.And? && SlotsOk(e, |val|)
  {
    && (forall l <- o.leaves :: |l| == |val| && Grows(l, val) && forall a: Vals :: |a| == |l| && Ext(a, l) ==>
        AllFrom(kb, e, pos, a))
    && (!o.abort ==> forall a: Vals :: |a| == |val| && Ext(a, val) && AllFrom(kb, e, pos, a) ==> Reached(o.leaves, a))
  }

  lemma {:induction false} CoversAnd(kb: Kb, e: Expr, pos: nat, val: Vals)
    requires e.And? && SlotsOk(e, |val|) && pos <= 2 * |e.children|
    requires forall i, v: Vals :: 0 <= i < |e.children| && |v| == |val| ==>
      Covers(kb, e.children[i], v, Leaves(kb, e.children[i], v))
    ensures AndCovers(kb, e, pos, val, AndLeaves(kb, e, pos, val))
    decreases 2 * |e.children| - pos, 0
  {
    hide Covers, Leaves, Grows, Ext;
    if pos == 2 * |e.children| {
      EmptyAnd(kb, e, val);
    } else if Skipped(e.children, pos) {
      CoversAnd(kb, e, pos + 1, val);
      SkipAnd(kb, e, pos, val, AndLeaves(kb, e, pos + 1, val));
    } else {
      var c := ChildAt(e.children, pos);
      var o := Leaves(kb, c, val);
      assert Covers(kb, c, val, o);
      CoversAndOf(kb, e, pos + 1, val, o);
      TakeAnd(kb, e, pos, val, o, AndLeavesOf(kb, e, pos + 1, |val|, o));
    }
  }

  lemma EmptyAnd(kb: Kb, e: Expr, val: Vals)
    requires e.And? && SlotsOk(e, |val|)
    ensures AndCovers(kb, e, 2 * |e.children|, val, Out([val], false))
  {
    assert val in [val];
  }

  lemma SkipAnd(kb: Kb, e: Expr, pos: nat, val: Vals, o: Out)
    requires e.And? && SlotsOk(e, |val|) && pos < 2 * |e.children| && Skipped(e.children, pos)
    requires AndCovers(kb, e, pos + 1, val, o)
    ensures AndCovers(kb, e, pos, val, o)
  {
    hide Ext, Grows, Skipped, ChildAt, Sat;
    forall a: Vals | |a| == |val|
      ensures AllFrom(kb, e, pos, a) == AllFrom(kb, e, pos + 1, a)
    {
    }
  }

  /** What holds of the bindings `r` that extend those of `o` by the conjuncts from `pos` on. */
  ghost predicate Extended(kb: Kb, e: Expr, pos: nat, n: nat, o: Out, r: Out)
    requires e.And? && SlotsOk(e, n)
  {
    && (forall l <- r.leaves :: |l| == n && (exists x :: x in o.leaves && Grows(l, x)) && forall a: Vals ::
        |a| == n && Ext(a, l) ==> AllFrom(kb, e, pos, a))
    && (!r.abort ==> !o.abort && forall a: Vals :: |a| == n && Reached(o.leaves, a) && AllFrom(kb, e, pos, a) ==>
        Reached(r.leaves, a))
  }

  lemma {:induction false} CoversAndOf(kb: Kb, e: Expr, pos: nat, val: Vals, o: Out)
    requires e.And? && SlotsOk(e, |val|) && pos <= 2 * |e.children| && forall l <- o.leaves :: |l| == |val|
    requires forall i, v: Vals :: 0 <= i < |e.children| && |v| == |val| ==>
      Covers(kb, e.children[i], v, Leaves(kb, e.children[i], v))
    ensures Extended(kb, e, pos, |val|, o, AndLeavesOf(kb, e, pos, |val|, o))
    decreases 2 * |e.children| - pos, 1 + |o.leaves|
  {
    hide Covers, Leaves, Grows, Ext, AllFrom, AndLeaves;
    if o.leaves != [] {
      CoversAnd(kb, e, pos, o.leaves[0]);
      var first := AndLeaves(kb, e, pos, o.leaves[0]);
      if !first.abort {
        var o' := Out(o.leaves[1..], o.abort);
        CoversAndOf(kb, e, pos, val, o');
        var rest := AndLeavesOf(kb, e, pos, |val|, o');
        ExtendedCons(kb, e, pos, |val|, o, first, rest);
      }
    }
  }

  lemma ExtendedCons(kb: Kb, e: Expr, pos: nat, n: nat, o: Out, first: Out, rest: Out)
    requires e.And? && SlotsOk(e, n) && o.leaves != [] && |o.leaves[0]| == n
    requires AndCovers(kb, e, pos, o.leaves[0], first) && !first.abort
    requires Extended(kb, e, pos, n, Out(o.leaves[1..], o.abort), rest)
    ensures Extended(kb, e, pos, n, o, Out(first.leaves + rest.leaves, rest.abort))
  {
    hide Grows, Ext, AllFrom;
    forall a: Vals | |a| == n && Reached(o.leaves, a) && AllFrom(kb, e, pos, a) && !rest.abort
      ensures Reached(first.leaves + rest.leaves, a)
    {
      var x :| x in o.leaves && Ext(a, x);
      if x == o.leaves[0] {
        assert Reached(first.leaves, a);
      } else {
        assert x in o.leaves[1..];
        assert Reached(o.leaves[1..], a);
        assert Reached(rest.leaves, a);
      }
    }
  }

  lemma AllFromStep(kb: Kb, e: Expr, pos: nat, a: Vals)
    requires e.And? && SlotsOk(e, |a|) && pos < 2 * |e.children| && !Skipped(e.children, pos)
    ensures AllFrom(kb, e, pos, a) <==> AllFrom(kb, e, pos + 1, a) && Sat(kb, ChildAt(e.children, pos), a)
  {
    hide Skipped, ChildAt, Sat;
  }

  lemma TakeAnd(kb: Kb, e: Expr, pos: nat, val: Vals, o: Out, r: Out)
    requires e.And? && SlotsOk(e, |val|) && pos < 2 * |e.children| && !Skipped(e.children, pos)
    requires Covers(kb, ChildAt(e.children, pos), val, o) && Extended(kb, e, pos + 1, |val|, o, r)
    ensures AndCovers(kb, e, pos, val, r)
  {
    hide Skipped, Sat, AllFrom, Ext, Grows;
    forall a: Vals | |a| == |val|
      ensures AllFrom(kb, e, pos, a) <==> AllFrom(kb, e, pos + 1, a) && Sat(kb, ChildAt(e.children, pos), a)
    {
      AllFromStep(kb, e, pos, a);
    }
    forall l | l in r.leaves
      ensures |l| == |val| && Grows(l, val)
      ensures forall a: Vals :: |a| == |val| && Ext(a, l) ==> Sat(kb, ChildAt(e.children, pos), a)
    {
      var x :| x in o.leaves && Grows(l, x);
      LeafGrows(kb, ChildAt(e.children, pos), l, x, val);
    }
  }

  /** A binding that grows a sound one is sound. */
  lemma LeafGrows(kb: Kb, c: Expr, l: Vals, x: Vals, val: Vals)
    requires |l| == |x| == |val| && SlotsOk(c, |val|) && LeafSound(kb, c, x) && Grows(l, x) && Grows(x, val)
    ensures Grows(l, val) && LeafSound(kb, c, l)
  {
    hide Sat;
    forall a: Vals | |a| == |l| && Ext(a, l)
      ensures Ext(a, x)
    {
    }
  }

  // ----- Negation -----

  /** An expression all of whose free variables are bound is settled. */
  lemma Settled(kb: Kb, e: Expr, val: Vals, a: Vals, a': Vals)
    requires SlotsOk(e, |val|) && Ground(e, val) && |a| == |a'| == |val| && Ext(a, val) && Ext(a', val)
    ensures Sat(kb, e, a) == Sat(kb, e, a')
  {
    GroundMeans(e, val);
    Coincidence(kb, e, a, a');
  }

  lemma CoversNot(kb: Kb, e: Expr, val: Vals)
    requires e.Not? && SlotsOk(e, |val|) && Covers(kb, e.child, val, Leaves(kb, e.child, val))
    ensures Covers(kb, e, val, Leaves(kb, e, val))
  {
    var c := e.child;
    if !c.Absent? && Ground(c, val) {
      var o := Leaves(kb, c, val);
      if o.leaves != [] {
        var l := o.leaves[0];
        var a0 := Fill(l);
        assert Ext(a0, l) && LeafSound(kb, c, l) && Sat(kb, c, a0);
        ExtGrows(a0, l, val);
        forall a: Vals | |a| == |val| && Ext(a, val)
          ensures !Sat(kb, e, a)
        {
          Settled(kb, c, val, a, a0);
        }
      } else if !o.abort {
        forall a: Vals | |a| == |val| && Ext(a, val)
          ensures Sat(kb, e, a)
        {
          assert !Reached(o.leaves, a);
        }
        assert Leaves(kb, e, val) == Out([val], false);
        assert Grows(val, val) && LeafSound(kb, e, val);
      }
    }
  }

  // ----- Quantifiers -----

  /** A slot holds an object of this type. */
  ghost predicate TypedAt(kb: Kb, ts: seq<(string, nat)>, i: nat, a: Vals)
    requires i < |ts| && TypeSlots(ts, |a|)
  {
    HasType(kb, a[ts[i].1], ts[i].0)
  }

  ghost predicate TypedFrom(kb: Kb, ts: seq<(string, nat)>, i: nat, a: Vals)
    requires i <= |ts| && TypeSlots(ts, |a|)
  {
    forall j :: i <= j < |ts| ==> TypedAt(kb, ts, j, a)
  }

  lemma TypeIsObject(kb: Kb, v: Val, t: string)
    requires KbOk(kb) && HasType(kb, v, t)
    ensures v.Obj? && v.id < |kb.names|
  {
    var x :| x in kb.rels[t].tuples && Names([v], x);
    assert [v][0] == Obj(x[0]);
    assert TupleOk(kb, kb.rels[t].arity, x);
  }

  /** What holds of the bindings of the type atoms from `i` on, starting at one of `from`. */
  ghost predicate TypeSound(kb: Kb, ts: seq<(string, nat)>, i: nat, n: nat, from: seq<Vals>, ls: seq<Vals>)
    requires i <= |ts| && TypeSlots(ts, n)
  {
    forall l <- ls :: |l| == n && TypedFrom(kb, ts, i, l) && exists x :: x in from && Grows(l, x) && SameBut(ts, l, x)
  }

  ghost predicate SameBut(ts: seq<(string, nat)>, l: Vals, x: Vals) {
    |l| == |x| && forall s: nat :: s < |l| && (forall j :: 0 <= j < |ts| ==> ts[j].1 != s) ==> l[s] == x[s]
  }

  ghost predicate TypeComplete(kb: Kb, ts: seq<(string, nat)>, i: nat, n: nat, from: seq<Vals>, ls: seq<Vals>)
    requires i <= |ts| && TypeSlots(ts, n)
  {
    forall a: Vals :: |a| == n && Reached(from, a) && TypedFrom(kb, ts, i, a) ==> Reached(ls, a)
  }

  lemma {:induction false} TypeLeavesCover(kb: Kb, ts: seq<(string, nat)>, i: nat, val: Vals)
    requires i <= |ts| && TypeSlots(ts, |val|)
    ensures TypeSound(kb, ts, i, |val|, [val], TypeLeaves(kb, ts, i, val))
    ensures TypeComplete(kb, ts, i, |val|, [val], TypeLeaves(kb, ts, i, val))
    decreases |ts| - i, 1, 0
  {
    if i < |ts| {
      var vals := AtomLeaves(kb, ts[i].0, [Var(ts[i].1)], val);
      TypeLeavesOfCover(kb, ts, i + 1, |val|, vals);
      TypeStep(kb, ts, i, val, TypeLeavesOf(kb, ts, i + 1, |val|, vals));
    }
  }

  lemma {:induction false} TypeLeavesOfCover(kb: Kb, ts: seq<(string, nat)>, i: nat, n: nat, vals: seq<Vals>)
    requires i <= |ts| && TypeSlots(ts, n) && forall v <- vals :: |v| == n
    ensures TypeSound(kb, ts, i, n, vals, TypeLeavesOf(kb, ts, i, n, vals))
    ensures TypeComplete(kb, ts, i, n, vals, TypeLeavesOf(kb, ts, i, n, vals))
    decreases |ts| - i, 2, |vals|
  {
    hide SameBut, Grows, Ext, TypedFrom;
    if vals != [] {
      TypeLeavesCover(kb, ts, i, vals[0]);
      TypeLeavesOfCover(kb, ts, i, n, vals[1..]);
      TypeCons(kb, ts, i, n, vals, TypeLeaves(kb, ts, i, vals[0]), TypeLeavesOf(kb, ts, i, n, vals[1..]));
    }
  }

  lemma TypeCons(kb: Kb, ts: seq<(string, nat)>, i: nat, n: nat, vals: seq<Vals>, x: seq<Vals>, y: seq<Vals>)
    requires i <= |ts| && TypeSlots(ts, n) && vals != []
    requires TypeSound(kb, ts, i, n, [vals[0]], x) && TypeComplete(kb, ts, i, n, [vals[0]], x)
    requires TypeSound(kb, ts, i, n, vals[1..], y) && TypeComplete(kb, ts, i, n, vals[1..], y)
    ensures TypeSound(kb, ts, i, n, vals, x + y) && TypeComplete(kb, ts, i, n, vals, x + y)
  {
    hide SameBut, Grows, Ext, TypedFrom;
    forall a: Vals | |a| == n && Reached(vals, a) && TypedFrom(kb, ts, i, a)
      ensures Reached(x + y, a)
    {
      var v :| v in vals && Ext(a, v);
      if v == vals[0] {
        assert v in [vals[0]];
        assert Reached([vals[0]], a);
        assert Reached(x, a);
      } else {
        assert v in vals[1..];
        assert Reached(vals[1..], a);
        assert Reached(y, a);
      }
    }
  }

  lemma TypeStep(kb: Kb, ts: seq<(string, nat)>, i: nat, val: Vals, ls: seq<Vals>)
    requires i < |ts| && TypeSlots(ts, |val|)
    requires var vals := AtomLeaves(kb, ts[i].0, [Var(ts[i].1)], val);
      TypeSound(kb, ts, i + 1, |val|, vals, ls) && TypeComplete(kb, ts, i + 1, |val|, vals, ls)
    ensures TypeSound(kb, ts, i, |val|, [val], ls) && TypeComplete(kb, ts, i, |val|, [val], ls)
  {
    hide AtomLeaves;
    var args := [Var(ts[i].1)];
    var vals := AtomLeaves(kb, ts[i].0, args, val);
    forall l | l in ls
      ensures |l| == |val| && TypedFrom(kb, ts, i, l) && Grows(l, val) && SameBut(ts, l, val)
    {
      var x :| x in vals && Grows(l, x) && SameBut(ts, l, x);
      TypeAtomStep(kb, ts, i, val, x, l);
    }
    assert val in [val];
    forall a: Vals | |a| == |val| && Reached([val], a) && TypedFrom(kb, ts, i, a)
      ensures Reached(ls, a)
    {
      assert TypedAt(kb, ts, i, a);
      assert Values(kb, args, a) == [a[ts[i].1]];
      AtomComplete(kb, ts[i].0, args, val, a);
      assert Reached(vals, a);
    }
  }

  lemma TypeAtomStep(kb: Kb, ts: seq<(string, nat)>, i: nat, val: Vals, x: Vals, l: Vals)
    requires i < |ts| && TypeSlots(ts, |val|) && x in AtomLeaves(kb, ts[i].0, [Var(ts[i].1)], val)
    requires |l| == |val| && Grows(l, x) && SameBut(ts, l, x) && TypedFrom(kb, ts, i + 1, l)
    ensures TypedFrom(kb, ts, i, l) && Grows(l, val) && SameBut(ts, l, val)
  {
    var args := [Var(ts[i].1)];
    var s := ts[i].1;
    AtomSound(kb, ts[i].0, args, val, x);
    assert Value(kb, args[0], x).Obj?;
    assert x[s] != Unbound && l[s] == x[s];
    var a := Fill(x);
    assert Ext(a, x) && a[s] == x[s];
    assert Values(kb, args, a) == [a[s]];
    assert TypedAt(kb, ts, i, l);
    assert ArgSlots(args) == {s};
  }

  lemma {:induction false} TypeAtomAt(bound: seq<Bound>, j: nat, k: nat)
    requires j < |bound| && k < |bound[j].types|
    ensures (bound[j].types[k], bound[j].slot) in TypeAtoms(bound)
  {
    var head := seq(|bound[0].types|, i requires 0 <= i < |bound[0].types| => (bound[0].types[i], bound[0].slot));
    if j == 0 {
      assert head[k] == (bound[0].types[k], bound[0].slot);
    } else {
      TypeAtomAt(bound[1..], j - 1, k);
    }
  }

  lemma {:induction false} TypeAtomFrom(bound: seq<Bound>, t: (string, nat))
    requires t in TypeAtoms(bound)
    ensures exists j, k :: 0 <= j < |bound| && 0 <= k < |bound[j].types| && t == (bound[j].types[k], bound[j].slot)
  {
    var head := seq(|bound[0].types|, i requires 0 <= i < |bound[0].types| => (bound[0].types[i], bound[0].slot));
    if t in head {
      var i :| 0 <= i < |head| && head[i] == t;
      assert 0 < |bound| && t == (bound[0].types[i], bound[0].slot);
    } else {
      TypeAtomFrom(bound[1..], t);
      var j, k :| 0 <= j < |bound[1..]| && 0 <= k < |bound[1..][j].types| && t ==
          (bound[1..][j].types[k], bound[1..][j].slot);
      assert bound[j + 1] == bound[1..][j];
    }
  }

  lemma TypedAtom(kb: Kb, bound: seq<Bound>, b: Vals, i: nat)
    requires TypeSlots(TypeAtoms(bound), |b|) && i < |TypeAtoms(bound)|
    requires forall j :: 0 <= j < |bound| ==> bound[j].slot < |b| && HasTypes(kb, b[bound[j].slot], bound[j].types)
    ensures TypedAt(kb, TypeAtoms(bound), i, b)
  {
    hide HasType;
    var t := TypeAtoms(bound)[i];
    TypeAtomFrom(bound, t);
    var j, k :| 0 <= j < |bound| && 0 <= k < |bound[j].types| && t == (bound[j].types[k], bound[j].slot);
    assert HasTypes(kb, b[bound[j].slot], bound[j].types);
  }

  lemma TypedBoundAt(kb: Kb, bound: seq<Bound>, b: Vals, j: nat, k: nat)
    requires TypeSlots(TypeAtoms(bound), |b|) && TypedFrom(kb, TypeAtoms(bound), 0, b)
    requires j < |bound| && bound[j].slot < |b| && k < |bound[j].types|
    ensures HasType(kb, b[bound[j].slot], bound[j].types[k])
  {
    TypeAtomAt(bound, j, k);
    var i :| 0 <= i < |TypeAtoms(bound)| && TypeAtoms(bound)[i] == (bound[j].types[k], bound[j].slot);
    assert TypedAt(kb, TypeAtoms(bound), i, b);
  }

  lemma TypedBound(kb: Kb, bound: seq<Bound>, b: Vals, j: nat)
    requires KbOk(kb) && TypeSlots(TypeAtoms(bound), |b|) && TypedFrom(kb, TypeAtoms(bound), 0, b)
    requires j < |bound| && bound[j].slot < |b| && bound[j].types != []
    ensures HasTypes(kb, b[bound[j].slot], bound[j].types) && b[bound[j].slot].Obj? && b[bound[j].slot].id < |kb.names|
  {
    hide HasType, KbOk, TypedFrom, TypeAtoms, TypeSlots;
    forall k | 0 <= k < |bound[j].types|
      ensures HasType(kb, b[bound[j].slot], bound[j].types[k])
    {
      TypedBoundAt(kb, bound, b, j, k);
    }
    TypeIsObject(kb, b[bound[j].slot], bound[j].types[0]);
  }

  /** The type atoms say that every quantified variable is an object of its types. */
  lemma TypedMeans(kb: Kb, bound: seq<Bound>, a: Vals, b: Vals)
    requires KbOk(kb) && |a| == |b| && (forall i :: 0 <= i < |bound| ==> bound[i].slot < |a| && bound[i].types != [])
    requires forall s: nat :: s < |a| && s !in Own(bound) ==> b[s] == a[s]
    requires TypeSlots(TypeAtoms(bound), |a|)
    ensures Instance(kb, bound, a, b) <==> TypedFrom(kb, TypeAtoms(bound), 0, b)
  {
    hide HasTypes, TypeAtoms, TypeSlots, TypedAt, KbOk, Own;
    if Instance(kb, bound, a, b) {
      forall i | 0 <= i < |TypeAtoms(bound)|
        ensures TypedAt(kb, TypeAtoms(bound), i, b)
      {
        TypedAtom(kb, bound, b, i);
      }
    }
    if TypedFrom(kb, TypeAtoms(bound), 0, b) {
      forall j | 0 <= j < |bound|
        ensures HasTypes(kb, b[bound[j].slot], bound[j].types) && b[bound[j].slot].Obj?
        ensures b[bound[j].slot].id < |kb.names|
      {
        TypedBound(kb, bound, b, j);
      }
    }
  }

  /** An instance extends whatever does not yet use the quantified variables. */
  lemma InstanceExt(kb: Kb, e: Expr, val: Vals, a: Vals, b: Vals)
    requires e.Quant? && SlotsOk(e, |val|) && Scoped(e, val) && Ext(a, val) && Instance(kb, e.bound, a, b)
    ensures Ext(b, val)
  {
    forall s: nat | s < |b|
      ensures b[s] != Unbound && (val[s] != Unbound ==> b[s] == val[s])
    {
      if s in Own(e.bound) {
        var i :| 0 <= i < |e.bound| && e.bound[i].slot == s;
      }
    }
  }

  /** The body's truth depends on the quantified variables only, the rest being bound. */
  lemma BodySettled(kb: Kb, e: Expr, val: Vals, a: Vals, b: Vals)
    requires e.Quant? && SlotsOk(e, |val|) && Scoped(e, val) && Ext(a, val) && Ext(b, val)
    requires forall s: nat :: s < |val| && s in Own(e.bound) ==> a[s] == b[s]
    ensures Sat(kb, e.body, a) == Sat(kb, e.body, b)
  {
    BoundButMeans(e.body, val, Own(e.bound));
    FreeAmongAll(e.body);
    Coincidence(kb, e.body, a, b);
  }

  lemma QuantTypes(e: Expr, n: nat)
    requires e.Quant? && SlotsOk(e, n) && Typed(e)
    ensures TypeSlots(TypeAtoms(e.bound), n)
    ensures forall i :: 0 <= i < |e.bound| ==> e.bound[i].slot < n && e.bound[i].types != []
    ensures forall s: nat :: s in Own(e.bound) <==>
        exists j :: 0 <= j < |TypeAtoms(e.bound)| && TypeAtoms(e.bound)[j].1 == s
  {
    BoundTypeSlots(e.bound, n);
    var ts := TypeAtoms(e.bound);
    forall s: nat
      ensures s in Own(e.bound) <==> exists j :: 0 <= j < |ts| && ts[j].1 == s
    {
      if s in Own(e.bound) {
        var i :| 0 <= i < |e.bound| && e.bound[i].slot == s;
        TypeAtomAt(e.bound, i, 0);
      }
      if j :| 0 <= j < |ts| && ts[j].1 == s {
        TypeAtomFrom(e.bound, ts[j]);
      }
    }
  }

  /** A witness: an assignment that satisfies the body with the variables typed settles the
      existential for every assignment extending `val`. */
  lemma WitnessSettles(kb: Kb, e: Expr, val: Vals, w: Vals, a: Vals)
    requires KbOk(kb) && e.Quant? && !e.all && SlotsOk(e, |val|) && Typed(e) && Scoped(e, val)
    requires |a| == |w| == |val| && Ext(w, val) && Ext(a, val) && Sat(kb, e.body, w)
    requires TypeSlots(TypeAtoms(e.bound), |val|) && TypedFrom(kb, TypeAtoms(e.bound), 0, w)
    ensures Sat(kb, e, a)
  {
    QuantTypes(e, |val|);
    var b := Graft(e.bound, a, w);
    TypedMeans(kb, e.bound, w, w);
    GraftInstance(kb, e.bound, w, w, a);
    InstanceExt(kb, e, val, a, b);
    BodySettled(kb, e, val, b, w);
  }

  lemma SelfSound(kb: Kb, e: Expr, val: Vals)
    requires SlotsOk(e, |val|) && forall a: Vals :: |a| == |val| && Ext(a, val) ==> Sat(kb, e, a)
    ensures Covers(kb, e, val, Out([val], false))
  {
    assert Grows(val, val) && val in [val];
  }

  lemma CoversExists(kb: Kb, e: Expr, val: Vals)
    requires KbOk(kb) && e.Quant? && !e.all && SlotsOk(e, |val|) && Typed(e)
    requires Covers(kb, e.body, val, Leaves(kb, e.body, val))
    ensures Covers(kb, e, val, Leaves(kb, e, val))
  {
    hide Leaves, Covers, Sat, Typed, Scoped, SlotsOk;
    ScopedLeaves(kb, e, val);
    if Scoped(e, val) {
      QuantTypes(e, |val|);
      var ts, o := TypeAtoms(e.bound), Leaves(kb, e.body, val);
      var typed := TypeLeavesOf(kb, ts, 0, |val|, o.leaves);
      TypeLeavesOfCover(kb, ts, 0, |val|, o.leaves);
      if typed != [] {
        TypedWitness(kb, e, val, o, typed, typed[0]);
        SelfSound(kb, e, val);
      } else if !o.abort {
        forall a: Vals | |a| == |val| && Ext(a, val)
          ensures !Sat(kb, e, a)
        {
          NoWitness(kb, e, val, o, typed, a);
        }
        NothingCovers(kb, e, val);
      } else {
        GaveUpCovers(kb, e, val);
      }
    }
  }

  /** The cases of `Leaves` for a quantifier, by whether it is in scope. */
  lemma ScopedLeaves(kb: Kb, e: Expr, val: Vals)
    requires e.Quant? && SlotsOk(e, |val|) && Typed(e)
    ensures SlotsOk(e.body, |val|) && Typed(e.body)
    ensures !Scoped(e, val) ==> Covers(kb, e, val, Leaves(kb, e, val))
    ensures TypeSlots(TypeAtoms(e.bound), |val|)
    ensures Scoped(e, val) && !e.all ==> Leaves(kb, e, val) == ExistsOut(kb, e, val)
    ensures Scoped(e, val) && e.all ==> Leaves(kb, e, val) == ForallOut(kb, e, val)
  {
    hide Sat;
    BoundTypeSlots(e.bound, |val|);
  }

  ghost function ExistsOut(kb: Kb, e: Expr, val: Vals): Out
    requires e.Quant? && SlotsOk(e.body, |val|) && TypeSlots(TypeAtoms(e.bound), |val|)
  {
    var o := Leaves(kb, e.body, val);
    if TypeLeavesOf(kb, TypeAtoms(e.bound), 0, |val|, o.leaves) != [] then Out([val], false) else Out([], o.abort)
  }

  ghost function ForallOut(kb: Kb, e: Expr, val: Vals): Out
    requires e.Quant? && SlotsOk(e.body, |val|) && TypeSlots(TypeAtoms(e.bound), |val|)
  {
    if TypeAtoms(e.bound) == [] then Out([], true)
    else
      match Check(kb, e.body, |val|, TypeLeaves(kb, TypeAtoms(e.bound), 0, val))
      case AllHold => Out([val], false)
      case OneFails => Out([], false)
      case GaveUp => Out([], true)
  }

  lemma NothingCovers(kb: Kb, e: Expr, val: Vals)
    requires SlotsOk(e, |val|) && forall a: Vals :: |a| == |val| && Ext(a, val) ==> !Sat(kb, e, a)
    ensures Covers(kb, e, val, Out([], false))
  {
  }

  lemma TypedWitness(kb: Kb, e: Expr, val: Vals, o: Out, typed: seq<Vals>, l: Vals)
    requires KbOk(kb) && e.Quant? && !e.all && SlotsOk(e, |val|) && Typed(e) && Scoped(e, val)
    requires SlotsOk(e.body, |val|) && Covers(kb, e.body, val, o) && TypeSlots(TypeAtoms(e.bound), |val|)
    requires TypeSound(kb, TypeAtoms(e.bound), 0, |val|, o.leaves, typed) && l in typed
    ensures forall a: Vals :: |a| == |val| && Ext(a, val) ==> Sat(kb, e, a)
  {
    hide Sat, SlotsOk, Typed, Scoped, Grows, Ext, TypedFrom, SameBut, LeafSound;
    var ts := TypeAtoms(e.bound);
    var x :| x in o.leaves && Grows(l, x) && SameBut(ts, l, x);
    var w := Fill(l);
    ExtGrows(w, l, x);
    ExtGrows(w, x, val);
    LeafHolds(kb, e.body, x, w);
    TypedStays(kb, ts, l, w);
    forall a: Vals | |a| == |val| && Ext(a, val)
      ensures Sat(kb, e, a)
    {
      WitnessSettles(kb, e, val, w, a);
    }
  }

  lemma LeafHolds(kb: Kb, e: Expr, l: Vals, a: Vals)
    requires SlotsOk(e, |l|) && LeafSound(kb, e, l) && |a| == |l| && Ext(a, l)
    ensures Sat(kb, e, a)
  {
  }

  /** What the type atoms set is set, so stays in any assignment extending it. */
  lemma TypedStays(kb: Kb, ts: seq<(string, nat)>, l: Vals, a: Vals)
    requires |a| == |l| && TypeSlots(ts, |l|) && TypedFrom(kb, ts, 0, l) && Ext(a, l)
    ensures TypedFrom(kb, ts, 0, a)
  {
    forall i | 0 <= i < |ts|
      ensures TypedAt(kb, ts, i, a)
    {
      assert TypedAt(kb, ts, i, l);
      TypeBinds(kb, l[ts[i].1], ts[i].0);
    }
  }

  lemma TypeBinds(kb: Kb, v: Val, t: string)
    requires HasType(kb, v, t)
    ensures v != Unbound
  {
    var x :| x in kb.rels[t].tuples && Names([v], x);
    assert [v][0] == Obj(x[0]);
  }

  lemma NoWitness(kb: Kb, e: Expr, val: Vals, o: Out, typed: seq<Vals>, a: Vals)
    requires KbOk(kb) && e.Quant? && !e.all && SlotsOk(e, |val|) && Typed(e) && Scoped(e, val) && |a| == |val|
    requires Ext(a, val)
    requires SlotsOk(e.body, |val|) && Covers(kb, e.body, val, o) && !o.abort && TypeSlots(TypeAtoms(e.bound), |val|)
    requires TypeComplete(kb, TypeAtoms(e.bound), 0, |val|, o.leaves, typed) && typed == []
    ensures !Sat(kb, e, a)
  {
    hide SlotsOk, Typed, Scoped, Grows, Ext, TypedFrom, Instance;
    QuantTypesHere(e, |val|);
    forall b: Vals | |b| == |a| && Instance(kb, e.bound, a, b)
      ensures !Sat(kb, e.body, b)
    {
      InstanceExt(kb, e, val, a, b);
      InstanceTyped(kb, e, a, b);
      assert !Reached(typed, b);
    }
  }

  lemma QuantTypesHere(e: Expr, n: nat)
    requires e.Quant? && SlotsOk(e, n) && Typed(e)
    ensures forall i :: 0 <= i < |e.bound| ==> e.bound[i].slot < n && e.bound[i].types != []
  {
  }

  lemma InstanceTyped(kb: Kb, e: Expr, a: Vals, b: Vals)
    requires KbOk(kb) && e.Quant? && |a| == |b| && SlotsOk(e, |a|) && Typed(e) && Instance(kb, e.bound, a, b)
    requires TypeSlots(TypeAtoms(e.bound), |a|)
    ensures TypedFrom(kb, TypeAtoms(e.bound), 0, b)
  {
    TypedMeans(kb, e.bound, a, b);
  }

  // ----- Universal quantifiers -----

  /** What `Check` finds of a list of bindings. */
  lemma {:induction false} CheckMeans(kb: Kb, body: Expr, n: nat, vals: seq<Vals>)
    requires SlotsOk(body, n) && forall v <- vals :: |v| == n
    ensures Check(kb, body, n, vals).AllHold? ==> forall v <- vals :: Leaves(kb, body, v).leaves != []
    ensures Check(kb, body, n, vals).OneFails? ==> exists v :: v in vals && Leaves(kb, body, v) == Out([], false)
  {
    hide Leaves;
    if vals != [] {
      var o := Leaves(kb, body, vals[0]);
      CheckMeans(kb, body, n, vals[1..]);
      assert vals[0] in vals && forall v <- vals :: v == vals[0] || v in vals[1..];
      assert o == Out(o.leaves, o.abort);
      if Check(kb, body, n, vals).OneFails? && o.leaves != [] {
        var v :| v in vals[1..] && Leaves(kb, body, v) == Out([], false);
        assert v in vals;
      }
    }
  }

  lemma CoversForall(kb: Kb, e: Expr, val: Vals)
    requires KbOk(kb) && e.Quant? && e.all && SlotsOk(e, |val|) && Typed(e) && SlotsOk(e.body, |val|)
    requires forall v: Vals :: |v| == |val| ==> Covers(kb, e.body, v, Leaves(kb, e.body, v))
    ensures Covers(kb, e, val, Leaves(kb, e, val))
  {
    hide Leaves, Sat, Typed, Scoped, SlotsOk, Ext, Grows, Sound, Complete;
    ScopedLeaves(kb, e, val);
    if Scoped(e, val) {
      QuantTypes(e, |val|);
      var ts := TypeAtoms(e.bound);
      if ts == [] {
        GaveUpCovers(kb, e, val);
      } else {
        var typed := TypeLeaves(kb, ts, 0, val);
        CheckMeans(kb, e.body, |val|, typed);
        TypeLeavesCover(kb, ts, 0, val);
        match Check(kb, e.body, |val|, typed)
        case AllHold =>
          forall a: Vals | |a| == |val| && Ext(a, val)
            ensures Sat(kb, e, a)
          {
            AllHoldHere(kb, e, val, typed, a);
          }
          SelfSound(kb, e, val);
        case OneFails =>
          var v :| v in typed && Leaves(kb, e.body, v) == Out([], false);
          forall a: Vals | |a| == |val| && Ext(a, val)
            ensures !Sat(kb, e, a)
          {
            OneFailsHere(kb, e, val, typed, v, a);
          }
          NothingCovers(kb, e, val);
        case GaveUp =>
          GaveUpCovers(kb, e, val);
      }
    }
  }

  lemma GaveUpCovers(kb: Kb, e: Expr, val: Vals)
    requires SlotsOk(e, |val|)
    ensures Covers(kb, e, val, Out([], true))
  {
  }

  lemma AllHoldHere(kb: Kb, e: Expr, val: Vals, typed: seq<Vals>, a: Vals)
    requires KbOk(kb) && e.Quant? && e.all && SlotsOk(e, |val|) && Typed(e) && Scoped(e, val) && |a| == |val|
    requires Ext(a, val)
    requires SlotsOk(e.body, |val|) && TypeSlots(TypeAtoms(e.bound), |val|)
    requires forall v: Vals :: |v| == |val| ==> Covers(kb, e.body, v, Leaves(kb, e.body, v))
    requires TypeComplete(kb, TypeAtoms(e.bound), 0, |val|, [val], typed)
    requires TypeSound(kb, TypeAtoms(e.bound), 0, |val|, [val], typed)
    requires forall v <- typed :: Leaves(kb, e.body, v).leaves != []
    ensures Sat(kb, e, a)
  {
    hide Leaves, Typed, Scoped, SlotsOk, Ext, Grows, TypedFrom, Instance, LeafSound, Complete;
    forall b: Vals | |b| == |a| && Instance(kb, e.bound, a, b)
      ensures Sat(kb, e.body, b)
    {
      InstanceExt(kb, e, val, a, b);
      InstanceTyped(kb, e, a, b);
      assert val in [val];
      assert Reached([val], b);
      assert Reached(typed, b);
      var v :| v in typed && Ext(b, v);
      var x := Leaves(kb, e.body, v).leaves[0];
      assert x in Leaves(kb, e.body, v).leaves;
      var w := Fill(x);
      ExtGrows(w, x, v);
      LeafHolds(kb, e.body, x, w);
      SettledOnTypes(kb, e, val, v, b, w);
    }
  }

  /** Two assignments that extend a binding of the quantified variables agree on the body. */
  lemma SettledOnTypes(kb: Kb, e: Expr, val: Vals, v: Vals, b: Vals, w: Vals)
    requires KbOk(kb) && e.Quant? && SlotsOk(e, |val|) && Typed(e) && Scoped(e, val) && |v| == |b| == |w| == |val|
    requires TypeSlots(TypeAtoms(e.bound), |val|) && TypedFrom(kb, TypeAtoms(e.bound), 0, v) && Grows(v, val)
    requires Ext(b, v) && Ext(w, v)
    ensures Sat(kb, e.body, b) == Sat(kb, e.body, w)
  {
    var ts := TypeAtoms(e.bound);
    QuantTypes(e, |val|);
    forall s: nat | s < |val| && s in Own(e.bound)
      ensures v[s] != Unbound
    {
      var j :| 0 <= j < |ts| && ts[j].1 == s;
      assert TypedAt(kb, ts, j, v);
      TypeBinds(kb, v[s], ts[j].0);
    }
    BodySettled(kb, e, val, b, w);
  }

  lemma OneFailsHere(kb: Kb, e: Expr, val: Vals, typed: seq<Vals>, v: Vals, a: Vals)
    requires KbOk(kb) && e.Quant? && e.all && SlotsOk(e, |val|) && Typed(e) && Scoped(e, val) && |a| == |val|
    requires Ext(a, val)
    requires SlotsOk(e.body, |val|) && TypeSlots(TypeAtoms(e.bound), |val|)
    requires TypeSound(kb, TypeAtoms(e.bound), 0, |val|, [val], typed) && v in typed
    requires |v| == |val| && Covers(kb, e.body, v, Leaves(kb, e.body, v)) && Leaves(kb, e.body, v) == Out([], false)
    ensures !Sat(kb, e, a)
  {
    hide Leaves, Typed, Scoped, SlotsOk, TypedFrom, Instance, LeafSound, KbOk;
    var ts := TypeAtoms(e.bound);
    QuantTypes(e, |val|);
    var w := Fill(v);
    TypedStays(kb, ts, v, w);
    TypedMeans(kb, e.bound, w, w);
    GraftInstance(kb, e.bound, w, w, a);
    var b := Graft(e.bound, a, w);
    assert SameBut(ts, v, val) && Grows(v, val);
    GraftExt(e, val, v, w, a);
    assert !Reached([], b);
  }

  lemma GraftExt(e: Expr, val: Vals, v: Vals, w: Vals, a: Vals)
    requires e.Quant? && SlotsOk(e, |val|) && Typed(e) && |v| == |w| == |a| == |val| && Ext(w, v) && Ext(a, val)
    requires SameBut(TypeAtoms(e.bound), v, val)
    ensures Ext(Graft(e.bound, a, w), v)
  {
    QuantTypes(e, |val|);
    forall s: nat | s < |val| && s !in Own(e.bound)
      ensures v[s] == val[s]
    {
    }
  }

  // ----- All expressions -----

  /** What is enumerated covers exactly the satisfying assignments. */
  lemma {:induction false} LeavesCover(kb: Kb, e: Expr, val: Vals)
    requires KbOk(kb) && SlotsOk(e, |val|) && Typed(e)
    ensures Covers(kb, e, val, Leaves(kb, e, val))
    decreases e
  {
    hide Covers;
    match e
    case Absent => SelfSound(kb, e, val);
    case Atom(_, _) => CoversAtom(kb, e, val);
    case Compare(_, _, _) => CoversCompare(kb, e, val);
    case Not(c) =>
      LeavesCover(kb, c, val);
      CoversNot(kb, e, val);
    case Imply(_, _) => GaveUpCovers(kb, e, val);
    case Quant(all, _, body) =>
      forall v: Vals | |v| == |val|
        ensures Covers(kb, body, v, Leaves(kb, body, v))
      {
        LeavesCover(kb, body, v);
      }
      if all {
        CoversForall(kb, e, val);
      } else {
        CoversExists(kb, e, val);
      }
    case And(cs) =>
      forall i, v: Vals | 0 <= i < |cs| && |v| == |val|
        ensures Covers(kb, cs[i], v, Leaves(kb, cs[i], v))
      {
        LeavesCover(kb, cs[i], v);
      }
      CoversAnd(kb, e, 0, val);
      AndIsSat(kb, e, val, AndLeaves(kb, e, 0, val));
    case Or(cs) =>
      forall i, v: Vals | 0 <= i < |cs| && |v| == |val|
        ensures Covers(kb, cs[i], v, Leaves(kb, cs[i], v))
      {
        LeavesCover(kb, cs[i], v);
      }
      CoversOr(kb, e, 0, val);
      OrIsSat(kb, e, val, OrLeaves(kb, e, 0, val));
  }

  lemma AndIsSat(kb: Kb, e: Expr, val: Vals, o: Out)
    requires e.And? && SlotsOk(e, |val|) && AndCovers(kb, e, 0, val, o)
    ensures Covers(kb, e, val, o)
  {
    hide AllFrom, Sat, Ext, Grows;
    forall a: Vals | |a| == |val|
      ensures AllFrom(kb, e, 0, a) <==> Sat(kb, e, a)
    {
      AllFromStart(kb, e, a);
    }
  }

  lemma OrIsSat(kb: Kb, e: Expr, val: Vals, o: Out)
    requires e.Or? && SlotsOk(e, |val|) && Sound(kb, e, val, o.leaves)
    requires !o.abort ==> forall a: Vals :: |a| == |val| && Ext(a, val) && SomeFrom(kb, e, 0, a) ==>
      Reached(o.leaves, a)
    ensures Covers(kb, e, val, o)
  {
    hide Sound, Ext;
    forall a: Vals | |a| == |val| && Sat(kb, e, a)
      ensures SomeFrom(kb, e, 0, a)
    {
    }
  }
}
