/** The fact base as the evaluator reads it, and ground queries (lib/expr.h, `eval_ground`). */
module Snapshots {
  import opened Queries
  import K = KnowledgeBase
  import B = Basics

  function TuplesOf(rel: seq<nat>, a: nat): seq<seq<nat>> {
    if a > 0 then K.Tuples(rel, a) else if rel == [] then [] else [[]]
  }

  /** A state's buffers, as relations by name. */
  function Snapshot(sc: K.Schema, v: seq<seq<nat>>): Kb
    requires K.SchemaOk(sc) && |v| == |sc.arity|
  {
    Kb(map h | h in sc.predId ::
        Rel(sc.arity[sc.predId[h]], TuplesOf(v[sc.predId[h]], sc.arity[sc.predId[h]])), sc.objId, sc.objName)
  }

  lemma SnapshotOk(sc: K.Schema, v: seq<seq<nat>>)
    requires K.SchemaOk(sc) && K.ViewOk(sc, v)
    ensures KbOk(Snapshot(sc, v))
  {
    hide K.Tidy, K.FactsIn;
    forall h | h in sc.predId
      ensures forall t <- TuplesOf(v[sc.predId[h]], sc.arity[sc.predId[h]]) ::
          TupleOk(Snapshot(sc, v), sc.arity[sc.predId[h]], t)
    {
      var p := sc.predId[h];
      K.FactIds(sc, v[p], sc.arity[p]);
      SameFacts(v[p], sc.arity[p]);
    }
  }

  lemma SameFacts(rel: seq<nat>, a: nat)
    ensures forall t :: t in K.FactsIn(rel, a) <==> t in TuplesOf(rel, a)
  {
  }

  function Objects(sc: K.Schema, args: seq<string>): Vals
    requires K.Known(sc, args)
  {
    seq(|args|, i requires 0 <= i < |args| => Obj(sc.objId[args[i]]))
  }

  /** What the evaluator takes for a fact is what the state believes. */
  lemma SnapshotFact(sc: K.Schema, v: seq<seq<nat>>, head: string, args: seq<string>)
    requires K.SchemaOk(sc) && K.ViewOk(sc, v) && K.Known(sc, args)
    requires head in sc.predId ==> |args| == sc.arity[sc.predId[head]]
    ensures Fact(Snapshot(sc, v), head, Objects(sc, args)) <==>
        head in K.Believed(sc, v) && args in K.Believed(sc, v)[head]
  {
    hide K.Tidy;
    if head in sc.predId {
      var rel, a := v[sc.predId[head]], |args|;
      K.NamedFact(sc, rel, a, args);
      SameFacts(rel, a);
      var t := K.IdsOf(sc, args);
      var vs := Objects(sc, args);
      assert Names(vs, t);
      if a == 0 {
        assert vs == [] && t == [];
      } else if u :| u in TuplesOf(rel, a) && Names(vs, u) {
        assert forall i :: 0 <= i < a ==> vs[i] == Obj(u[i]);
        assert u == t;
      }
    }
  }

  // ----- Ground queries -----

  /** `KnowledgeBase::holds`: false of an unknown predicate, a wrong arity or an unknown object. */
  ghost predicate Holds(kb: Kb, p: string, args: seq<string>) {
    && p in kb.rels && kb.rels[p].arity == |args|
    && (forall i :: 0 <= i < |args| ==> args[i] in kb.ids)
    && exists t :: t in kb.rels[p].tuples && |t| == |args| && forall i :: 0 <= i < |args| ==>
        args[i] in kb.ids && kb.ids[args[i]] == t[i]
  }

  predicate AllConst(args: seq<Term>) {
    forall i :: 0 <= i < |args| ==> args[i].Const?
  }

  function ConstNames(args: seq<Term>): seq<string>
    requires AllConst(args)
  {
    seq(|args|, i requires 0 <= i < |args| => args[i].name)
  }

  /** The truth of ground text, by short circuit, or nothing where this path makes no claim. */
  ghost function EvalGround(kb: Kb, e: Expr): B.Option<bool>
    decreases e, 2
  {
    match e
    case Atom(p, args) => if AllConst(args) then B.Some(Holds(kb, p, ConstNames(args))) else B.None
    case Compare(equals, l, r) =>
      if l.Const? && r.Const? then B.Some((l.name == r.name) == equals) else B.None
    case Not(c) => var v := EvalGround(kb, c); if v.Some? then B.Some(!v.value) else B.None
    case And(_) => EvalFrom(kb, e, 0)
    case Or(_) => EvalFrom(kb, e, 0)
    case _ => B.None
  }

  /** The children from `i` on, up to the first that settles it. */
  ghost function EvalFrom(kb: Kb, e: Expr, i: nat): B.Option<bool>
    requires (e.And? || e.Or?) && i <= |e.children|
    decreases e, 1, |e.children| - i
  {
    if i == |e.children| then B.Some(e.And?)
    else
      var v := EvalGround(kb, e.children[i]);
      if v.None? then B.None
      else if v.value != e.And? then v
      else EvalFrom(kb, e, i + 1)
  }

  /** An atom without arguments is of a predicate without parameters. */
  ghost predicate PlainAtoms(kb: Kb, e: Expr) {
    match e
    case Atom(p, args) => args == [] && p in kb.rels ==> kb.rels[p].arity == 0
    case Not(c) => PlainAtoms(kb, c)
    case And(cs) => forall i :: 0 <= i < |cs| ==> PlainAtoms(kb, cs[i])
    case Or(cs) => forall i :: 0 <= i < |cs| ==> PlainAtoms(kb, cs[i])
    case _ => true
  }

  lemma HoldsIsFact(kb: Kb, e: Expr, a: Vals)
    requires KbOk(kb) && e.Atom? && AllConst(e.args) && SlotsOk(e, |a|) && PlainAtoms(kb, e)
    ensures Holds(kb, e.pred, ConstNames(e.args)) <==> Fact(kb, e.pred, Values(kb, e.args, a))
  {
    var vs, names := Values(kb, e.args, a), ConstNames(e.args);
    assert forall i :: 0 <= i < |vs| ==> vs[i] == Resolve(kb, names[i]);
    if e.pred in kb.rels && kb.rels[e.pred].arity == |names| {
      var ts := kb.rels[e.pred].tuples;
      forall t | t in ts
        ensures Names(vs, t) <==> |t| == |names| && forall i :: 0 <= i < |names| ==>
          names[i] in kb.ids && kb.ids[names[i]] == t[i]
      {
        assert TupleOk(kb, kb.rels[e.pred].arity, t);
      }
      if names == [] && ts != [] {
        assert ts[0] in ts && TupleOk(kb, kb.rels[e.pred].arity, ts[0]);
      }
    }
  }

  /** Ground text and a precondition read an atom without arguments alike if and only if its
      predicate has no parameters or holds of nothing. */
  lemma EmptyAtom(kb: Kb, p: string)
    requires KbOk(kb) && p in kb.rels
    ensures (Holds(kb, p, []) <==> Fact(kb, p, [])) <==> kb.rels[p].arity == 0 || kb.rels[p].tuples == []
  {
    var ts := kb.rels[p].tuples;
    if ts != [] {
      assert ts[0] in ts && TupleOk(kb, kb.rels[p].arity, ts[0]);
    }
  }

  /** And they do read one differently: a fact base with one object and one fact of it. */
  lemma EmptyAtomReadTwice()
    ensures exists kb: Kb, p: string :: KbOk(kb) && !Holds(kb, p, []) && Fact(kb, p, [])
  {
    var kb := Kb(map["p" := Rel(1, [[0]])], map["o" := 0], ["o"]);
    assert KbOk(kb);
    EmptyAtom(kb, "p");
    assert !Holds(kb, "p", []) && Fact(kb, "p", []);
  }

  /** Where it makes a claim, the claim is the expression's truth under every assignment. */
  lemma {:induction false} GroundAgrees(kb: Kb, e: Expr, a: Vals)
    requires KbOk(kb) && SlotsOk(e, |a|) && PlainAtoms(kb, e) && EvalGround(kb, e).Some?
    ensures EvalGround(kb, e).value == Sat(kb, e, a)
    decreases e, 2
  {
    match e
    case Atom(_, _) => HoldsIsFact(kb, e, a);
    case Compare(_, l, r) =>
      assert Resolve(kb, l.name) == Resolve(kb, r.name) <==> l.name == r.name;
    case Not(c) => GroundAgrees(kb, c, a);
    case And(_) => GroundFrom(kb, e, 0, a);
    case Or(_) => GroundFrom(kb, e, 0, a);
    case _ =>
  }

  lemma {:induction false} GroundFrom(kb: Kb, e: Expr, i: nat, a: Vals)
    requires KbOk(kb) && (e.And? || e.Or?) && SlotsOk(e, |a|) && PlainAtoms(kb, e) && i <= |e.children|
    requires EvalFrom(kb, e, i).Some?
    ensures e.And? ==> EvalFrom(kb, e, i).value == forall j :: i <= j < |e.children| ==> Sat(kb, e.children[j], a)
    ensures e.Or? ==> EvalFrom(kb, e, i).value == exists j :: i <= j < |e.children| && Sat(kb, e.children[j], a)
    decreases e, 1, |e.children| - i
  {
    if i < |e.children| {
      GroundAgrees(kb, e.children[i], a);
      if EvalGround(kb, e.children[i]).value == e.And? {
        GroundFrom(kb, e, i + 1, a);
      }
    }
  }
}
