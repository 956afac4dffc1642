/** Expressions the direct evaluator never gives up on (lib/evaluator.h): positive atoms and equalities
    are taken first, and then every negation, disequality and quantifier finds what it needs bound. */
module Safety {
  import opened Queries
  import opened Enumeration

  /** The slots in `sure` are bound, and none outside `maybe` is. */
  ghost predicate Between(val: Vals, sure: set<nat>, maybe: set<nat>) {
    && (forall s <- sure :: s < |val| && val[s] != Unbound)
    && forall s: nat :: s < |val| && val[s] != Unbound ==> s in maybe
  }

  /** What is surely bound where the expression has been satisfied. */
  function After(e: Expr, sure: set<nat>): set<nat>
    decreases e, 1, 0
  {
    match e
    case Atom(_, args) => sure + ArgSlots(args)
    case Compare(_, l, r) => sure + TermSlots(l) + TermSlots(r)
    case And(_) => AndAfter(e, 0, sure)
    case _ => sure
  }

  function AndAfter(e: Expr, pos: nat, sure: set<nat>): set<nat>
    requires e.And? && pos <= 2 * |e.children|
    decreases e, 0, 2 * |e.children| - pos
  {
    if pos == 2 * |e.children| then sure
    else if Skipped(e.children, pos) then AndAfter(e, pos + 1, sure)
    else AndAfter(e, pos + 1, After(ChildAt(e.children, pos), sure))
  }

  function TypedSlots(bound: seq<Bound>): set<nat> {
    set i | 0 <= i < |bound| && bound[i].types != [] :: bound[i].slot
  }

  /** Nothing in the expression is met before what it needs is bound: an equality needs one side, a
      disequality both, a negation and a quantifier all their free variables; and a quantifier's own
      variables are used in its body and nowhere before it. */
  ghost predicate Safe(e: Expr, sure: set<nat>, maybe: set<nat>)
    decreases e, 1, 0
  {
    match e
    case Absent => true
    case Atom(_, _) => true
    case Compare(equals, l, r) =>
      if equals then TermSlots(l) <= sure || TermSlots(r) <= sure else TermSlots(l) + TermSlots(r) <= sure
    case Not(c) => !c.Absent? && Free(c) <= sure && Safe(c, sure, maybe)
    case And(_) => AndSafe(e, 0, sure, maybe)
    case Or(cs) => forall i :: 0 <= i < |cs| ==> Safe(cs[i], sure, maybe)
    case Imply(_, _) => false
    case Quant(all, bound, body) =>
      && bound != [] && !body.Absent?
      && Own(bound) !! maybe && Own(bound) <= AllVars(body) && Free(e) <= sure
      && if all then TypedSlots(bound) != {} && Safe(body, sure + TypedSlots(bound), maybe + Own(bound))
         else Safe(body, sure, maybe)
  }

  ghost predicate AndSafe(e: Expr, pos: nat, sure: set<nat>, maybe: set<nat>)
    requires e.And? && pos <= 2 * |e.children|
    decreases e, 0, 2 * |e.children| - pos
  {
    if pos == 2 * |e.children| then true
    else if Skipped(e.children, pos) then AndSafe(e, pos + 1, sure, maybe)
    else
      var c := ChildAt(e.children, pos);
      Safe(c, sure, maybe) && AndSafe(e, pos + 1, After(c, sure), maybe + Free(e))
  }

  /** It does not give up, and each binding has what it should. */
  ghost predicate Answers(o: Out, n: nat, sure: set<nat>, maybe: set<nat>) {
    !o.abort && forall l <- o.leaves :: |l| == n && Between(l, sure, maybe)
  }

  lemma AnswersMore(o: Out, n: nat, sure: set<nat>, maybe: set<nat>, fewer: set<nat>, more: set<nat>)
    requires Answers(o, n, sure, maybe) && fewer <= sure && maybe <= more
    ensures Answers(o, n, fewer, more)
  {
  }

  lemma SafeAtom(kb: Kb, p: string, args: seq<Term>, val: Vals, sure: set<nat>, maybe: set<nat>)
    requires ArgsOk(args, |val|) && Between(val, sure, maybe)
    ensures Answers(Out(AtomLeaves(kb, p, args, val), false), |val|, sure + ArgSlots(args), maybe + ArgSlots(args))
  {
    hide AtomLeaves;
    forall l | l in AtomLeaves(kb, p, args, val)
      ensures Between(l, sure + ArgSlots(args), maybe + ArgSlots(args))
    {
      AtomSound(kb, p, args, val, l);
      assert forall i :: 0 <= i < |args| && args[i].Var? ==> Value(kb, args[i], l) == l[args[i].slot];
    }
  }

  lemma SafeCompare(kb: Kb, e: Expr, val: Vals, sure: set<nat>, maybe: set<nat>)
    requires e.Compare? && SlotsOk(e, |val|) && Between(val, sure, maybe) && Safe(e, sure, maybe)
    ensures Answers(Leaves(kb, e, val), |val|, After(e, sure), maybe + Free(e))
  {
  }

  /** The bindings of a quantifier's type atoms. */
  lemma {:induction false} SafeTypes(kb: Kb, ts: seq<(string, nat)>, i: nat, val: Vals, sure: set<nat>, maybe: set<nat>)
    requires i <= |ts| && TypeSlots(ts, |val|) && Between(val, sure, maybe)
    ensures Answers(Out(TypeLeaves(kb, ts, i, val), false), |val|, sure + SlotsFrom(ts, i), maybe + SlotsFrom(ts, i))
    decreases |ts| - i, 0, 0
  {
    hide AtomLeaves, TypeLeavesOf;
    if i < |ts| {
      var args := [Var(ts[i].1)];
      SafeAtom(kb, ts[i].0, args, val, sure, maybe);
      assert ArgSlots(args) == {ts[i].1} by {
        assert args[0].slot == ts[i].1;
      }
      SafeTypesOf(kb, ts, i + 1, |val|, AtomLeaves(kb, ts[i].0, args, val), sure + {ts[i].1}, maybe + {ts[i].1});
      assert SlotsFrom(ts, i) == {ts[i].1} + SlotsFrom(ts, i + 1);
      assert sure + {ts[i].1} + SlotsFrom(ts, i + 1) == sure + SlotsFrom(ts, i);
      assert maybe + {ts[i].1} + SlotsFrom(ts, i + 1) == maybe + SlotsFrom(ts, i);
    }
  }

  lemma {:induction false} SafeTypesOf(kb: Kb, ts: seq<(string, nat)>, i: nat, n: nat, vals: seq<Vals>,
        sure: set<nat>, maybe: set<nat>)
    requires i <= |ts| && TypeSlots(ts, n) && Answers(Out(vals, false), n, sure, maybe)
    ensures Answers(Out(TypeLeavesOf(kb, ts, i, n, vals), false), n, sure + SlotsFrom(ts, i), maybe + SlotsFrom(ts, i))
    decreases |ts| - i, 1, |vals|
  {
    hide TypeLeaves, Between;
    if vals != [] {
      assert vals[0] in vals && forall v <- vals[1..] :: v in vals;
      SafeTypes(kb, ts, i, vals[0], sure, maybe);
      SafeTypesOf(kb, ts, i, n, vals[1..], sure, maybe);
    }
  }

  ghost function SlotsFrom(ts: seq<(string, nat)>, i: nat): set<nat>
    requires i <= |ts|
  {
    set k | i <= k < |ts| :: ts[k].1
  }

  /** The slots of the type atoms are those of the variables with a type. */
  lemma {:induction false} TypedSlotsMean(bound: seq<Bound>)
    ensures SlotsFrom(TypeAtoms(bound), 0) == TypedSlots(bound)
    ensures TypeAtoms(bound) == [] <==> TypedSlots(bound) == {}
  {
    if bound != [] {
      var own := seq(|bound[0].types|, i requires 0 <= i < |bound[0].types| => (bound[0].types[i], bound[0].slot));
      var rest := TypeAtoms(bound[1..]);
      TypedSlotsMean(bound[1..]);
      assert TypeAtoms(bound) == own + rest;
      forall s
        ensures s in TypedSlots(bound) <==> (bound[0].types != [] && s == bound[0].slot) || s in TypedSlots(bound[1..])
      {
        if s in TypedSlots(bound[1..]) {
          var i :| 0 <= i < |bound[1..]| && bound[1..][i].types != [] && bound[1..][i].slot == s;
          assert bound[i + 1].slot == s;
        }
      }
      forall s
        ensures s in SlotsFrom(own + rest, 0) <==> (own != [] && s == bound[0].slot) || s in SlotsFrom(rest, 0)
      {
        if s in SlotsFrom(rest, 0) {
          var k :| 0 <= k < |rest| && rest[k].1 == s;
          assert (own + rest)[|own| + k].1 == s;
        }
        if own != [] && s == bound[0].slot {
          assert (own + rest)[0].1 == s;
        }
      }
      assert TypeAtoms(bound) != [] ==> TypeAtoms(bound)[0].1 in SlotsFrom(TypeAtoms(bound), 0);
    }
  }

  lemma {:induction false} SafeCheck(kb: Kb, body: Expr, n: nat, vals: seq<Vals>, sure: set<nat>, maybe: set<nat>)
    requires SlotsOk(body, n) && Answers(Out(vals, false), n, sure, maybe)
    requires Safe(body, sure, maybe)
    ensures !Check(kb, body, n, vals).GaveUp?
    decreases body, 3, |vals|
  {
    hide Between, Leaves, Safe;
    if vals != [] {
      assert vals[0] in vals && forall v <- vals[1..] :: v in vals;
      SafeAnswers(kb, body, vals[0], sure, maybe);
      SafeCheck(kb, body, n, vals[1..], sure, maybe);
    }
  }

  lemma SafeForall(kb: Kb, e: Expr, val: Vals, sure: set<nat>, maybe: set<nat>)
    requires e.Quant? && e.all && SlotsOk(e, |val|) && Between(val, sure, maybe) && Safe(e, sure, maybe)
    ensures Answers(Leaves(kb, e, val), |val|, sure, maybe)
    decreases e, 0, 0
  {
    hide Safe, Check, TypeLeaves, TypeAtoms;
    SafeQuant(e, sure, maybe);
    SafeScoped(e, val, sure, maybe);
    TypedSlotsMean(e.bound);
    BoundTypeSlots(e.bound, |val|);
    var vals := TypeLeaves(kb, TypeAtoms(e.bound), 0, val);
    SafeTypes(kb, TypeAtoms(e.bound), 0, val, sure, maybe);
    AnswersMore(Out(vals, false), |val|, sure + TypedSlots(e.bound), maybe + TypedSlots(e.bound),
                sure + TypedSlots(e.bound), maybe + Own(e.bound));
    SafeCheck(kb, e.body, |val|, vals, sure + TypedSlots(e.bound), maybe + Own(e.bound));
  }

  lemma SafeQuant(e: Expr, sure: set<nat>, maybe: set<nat>)
    requires e.Quant? && Safe(e, sure, maybe)
    ensures Own(e.bound) !! maybe && Own(e.bound) <= AllVars(e.body) && Free(e) <= sure
    ensures e.all ==> TypedSlots(e.bound) != {} && Safe(e.body, sure + TypedSlots(e.bound), maybe + Own(e.bound))
    ensures !e.all ==> Safe(e.body, sure, maybe)
    ensures TypedSlots(e.bound) <= Own(e.bound)
  {
  }

  lemma SafeScoped(e: Expr, val: Vals, sure: set<nat>, maybe: set<nat>)
    requires e.Quant? && SlotsOk(e, |val|) && Between(val, sure, maybe)
    requires Own(e.bound) !! maybe && Own(e.bound) <= AllVars(e.body) && Free(e) <= sure
    ensures Scoped(e, val)
  {
    BoundButMeans(e.body, val, Own(e.bound));
    assert AllVars(e.body) - Own(e.bound) == Free(e);
    forall i | 0 <= i < |e.bound|
      ensures e.bound[i].slot in Own(e.bound)
    {
    }
  }

  lemma {:induction false} SafeAnd(kb: Kb, e: Expr, pos: nat, val: Vals, sure: set<nat>, maybe: set<nat>)
    requires e.And? && SlotsOk(e, |val|) && pos <= 2 * |e.children|
    requires Between(val, sure, maybe) && AndSafe(e, pos, sure, maybe)
    ensures Answers(AndLeaves(kb, e, pos, val), |val|, AndAfter(e, pos, sure), maybe + Free(e))
    decreases e, 1, 2 * |e.children| - pos, 0
  {
    hide Between, Leaves, Safe, After, Skipped, ChildAt, AndLeavesOf;
    if pos == 2 * |e.children| {
      NoneMore(val, sure, maybe, Free(e));
    } else if Skipped(e.children, pos) {
      SafeAnd(kb, e, pos + 1, val, sure, maybe);
    } else {
      var c := ChildAt(e.children, pos);
      ChildOf(e, pos, |val|);
      SafeAnswers(kb, c, val, sure, maybe);
      var o := Leaves(kb, c, val);
      AnswersMore(o, |val|, After(c, sure), maybe + Free(c), After(c, sure), maybe + Free(e));
      SafeAndOf(kb, e, pos + 1, |val|, o, After(c, sure), maybe + Free(e));
      assert maybe + Free(e) + Free(e) == maybe + Free(e);
    }
  }

  lemma NoneMore(val: Vals, sure: set<nat>, maybe: set<nat>, more: set<nat>)
    requires Between(val, sure, maybe)
    ensures Answers(Out([val], false), |val|, sure, maybe + more)
  {
  }

  lemma ChildOf(e: Expr, pos: nat, n: nat)
    requires e.And? && pos < 2 * |e.children| && SlotsOk(e, n)
    ensures var c := ChildAt(e.children, pos); c < e && SlotsOk(c, n) && Free(c) <= Free(e)
  {
    var i := if pos < |e.children| then pos else pos - |e.children|;
    assert e.children[i] == ChildAt(e.children, pos);
  }

  lemma {:induction false} SafeAndOf(kb: Kb, e: Expr, pos: nat, n: nat, o: Out, sure: set<nat>, maybe: set<nat>)
    requires e.And? && SlotsOk(e, n) && pos <= 2 * |e.children|
    requires Answers(o, n, sure, maybe) && AndSafe(e, pos, sure, maybe)
    ensures Answers(AndLeavesOf(kb, e, pos, n, o), n, AndAfter(e, pos, sure), maybe + Free(e))
    decreases e, 1, 2 * |e.children| - pos, 1 + |o.leaves|
  {
    hide Between, AndLeaves, AndSafe, AndAfter, Free;
    if o.leaves != [] {
      assert o.leaves[0] in o.leaves && forall l <- o.leaves[1..] :: l in o.leaves;
      SafeAnd(kb, e, pos, o.leaves[0], sure, maybe);
      SafeAndOf(kb, e, pos, n, Out(o.leaves[1..], o.abort), sure, maybe);
    }
  }

  lemma {:induction false} SafeOr(kb: Kb, e: Expr, pos: nat, val: Vals, sure: set<nat>, maybe: set<nat>)
    requires e.Or? && SlotsOk(e, |val|) && pos <= |e.children|
    requires Between(val, sure, maybe) && Safe(e, sure, maybe)
    ensures Answers(OrLeaves(kb, e, pos, val), |val|, sure, maybe + Free(e))
    decreases e, 1, |e.children| - pos, 0
  {
    hide Between, Leaves, After, AndSafe;
    if pos < |e.children| {
      var c := e.children[pos];
      assert Free(c) <= Free(e);
      SafeAnswers(kb, c, val, sure, maybe);
      AfterGrows(c, sure);
      AnswersMore(Leaves(kb, c, val), |val|, After(c, sure), maybe + Free(c), sure, maybe + Free(e));
      SafeOr(kb, e, pos + 1, val, sure, maybe);
    }
  }

  lemma {:induction false} AfterGrows(e: Expr, sure: set<nat>)
    ensures sure <= After(e, sure)
    decreases e, 1, 0
  {
    if e.And? {
      AndAfterGrows(e, 0, sure);
    }
  }

  lemma {:induction false} AndAfterGrows(e: Expr, pos: nat, sure: set<nat>)
    requires e.And? && pos <= 2 * |e.children|
    ensures sure <= AndAfter(e, pos, sure)
    decreases e, 0, 2 * |e.children| - pos
  {
    if pos < 2 * |e.children| {
      if Skipped(e.children, pos) {
        AndAfterGrows(e, pos + 1, sure);
      } else {
        AfterGrows(ChildAt(e.children, pos), sure);
        AndAfterGrows(e, pos + 1, After(ChildAt(e.children, pos), sure));
      }
    }
  }

  /** A safe expression is answered, whatever the facts are. */
  lemma {:induction false} SafeAnswers(kb: Kb, e: Expr, val: Vals, sure: set<nat>, maybe: set<nat>)
    requires SlotsOk(e, |val|) && Between(val, sure, maybe) && Safe(e, sure, maybe)
    ensures Answers(Leaves(kb, e, val), |val|, After(e, sure), maybe + Free(e))
    decreases e, 2, 0, 0
  {
    hide Ground, Scoped, AtomLeaves, CompareLeaves, AndLeaves, OrLeaves, Check, TypeLeavesOf, Between, AndSafe,
         AndAfter;
    match e
    case Absent => NoneMore(val, sure, maybe, {});
    case Atom(p, args) => SafeAtom(kb, p, args, val, sure, maybe);
    case Compare(_, _, _) => SafeCompare(kb, e, val, sure, maybe);
    case Not(c) =>
      SafeGround(c, val, sure, maybe);
      SafeAnswers(kb, c, val, sure, maybe);
      NoneMore(val, sure, maybe, Free(e));
    case And(_) => SafeAnd(kb, e, 0, val, sure, maybe);
    case Or(_) => SafeOr(kb, e, 0, val, sure, maybe);
    case Imply(_, _) =>
    case Quant(all, _, body) =>
      NoneMore(val, sure, maybe, Free(e));
      if all {
        SafeForall(kb, e, val, sure, maybe);
        AnswersMore(Leaves(kb, e, val), |val|, sure, maybe, sure, maybe + Free(e));
      } else {
        SafeScoped(e, val, sure, maybe);
        SafeAnswers(kb, body, val, sure, maybe);
      }
  }

  lemma SafeGround(c: Expr, val: Vals, sure: set<nat>, maybe: set<nat>)
    requires SlotsOk(c, |val|) && Between(val, sure, maybe) && Free(c) <= sure
    ensures Ground(c, val)
  {
    GroundMeans(c, val);
  }
}
