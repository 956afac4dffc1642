/** Precondition expressions and what they mean (lib/expr.h): closed-world satisfaction over the
    fact base. Variables are the slots `number_variables` gave them. */
module Queries {

  // ----- Expressions -----

  datatype Term = Const(name: string) | Var(slot: nat)

  /** A quantified variable with the types that guard it. */
  datatype Bound = Bound(slot: nat, types: seq<string>)

  /** `Absent` is the null pointer: a sentence that was not there, and constrains nothing. */
  datatype Expr =
    | Absent
    | Atom(pred: string, args: seq<Term>)
    | Compare(equals: bool, left: Term, right: Term)
    | Not(child: Expr)
    | And(children: seq<Expr>)
    | Or(children: seq<Expr>)
    | Imply(left_: Expr, right_: Expr)
    | Quant(all: bool, bound: seq<Bound>, body: Expr)

  /** What a slot of the binding array holds: nothing yet, an object, or a value naming no object. */
  datatype Val = Unbound | Obj(id: nat) | Text(text: string)

  type Vals = seq<Val>

  // ----- The fact base, as queried -----

  datatype Rel = Rel(arity: nat, tuples: seq<seq<nat>>)

  datatype Kb = Kb(rels: map<string, Rel>, ids: map<string, nat>, names: seq<string>)

  ghost predicate KbOk(kb: Kb) {
    && (forall s <- kb.ids :: kb.ids[s] < |kb.names| && kb.names[kb.ids[s]] == s)
    && (forall i: nat :: i < |kb.names| ==> kb.names[i] in kb.ids && kb.ids[kb.names[i]] == i)
    && (forall p <- kb.rels :: forall t <- kb.rels[p].tuples :: TupleOk(kb, kb.rels[p].arity, t))
  }

  ghost predicate TupleOk(kb: Kb, arity: nat, t: seq<nat>) {
    |t| == arity && forall i :: 0 <= i < |t| ==> t[i] < |kb.names|
  }

  // ----- Slots -----

  function TermSlots(t: Term): set<nat> {
    if t.Var? then {t.slot} else {}
  }

  function ArgSlots(args: seq<Term>): set<nat> {
    set i | 0 <= i < |args| && args[i].Var? :: args[i].slot
  }

  function Own(bound: seq<Bound>): set<nat> {
    set i | 0 <= i < |bound| :: bound[i].slot
  }

  /** Every variable mentioned under `e`. */
  function AllVars(e: Expr): set<nat> {
    match e
    case Absent => {}
    case Atom(_, args) => ArgSlots(args)
    case Compare(_, l, r) => TermSlots(l) + TermSlots(r)
    case Not(c) => AllVars(c)
    case And(cs) => set i, s | 0 <= i < |cs| && s in AllVars(cs[i]) :: s
    case Or(cs) => set i, s | 0 <= i < |cs| && s in AllVars(cs[i]) :: s
    case Imply(x, y) => AllVars(x) + AllVars(y)
    case Quant(_, _, body) => AllVars(body)
  }

  /** Those not bound by a quantifier at the top of a branch. */
  function Free(e: Expr): set<nat> {
    match e
    case Absent => {}
    case Atom(_, args) => ArgSlots(args)
    case Compare(_, l, r) => TermSlots(l) + TermSlots(r)
    case Not(c) => Free(c)
    case And(cs) => set i, s | 0 <= i < |cs| && s in Free(cs[i]) :: s
    case Or(cs) => set i, s | 0 <= i < |cs| && s in Free(cs[i]) :: s
    case Imply(x, y) => Free(x) + Free(y)
    case Quant(_, bound, body) => AllVars(body) - Own(bound)
  }

  /** Slots are below `n`. */
  ghost predicate SlotsOk(e: Expr, n: nat) {
    match e
    case Absent => true
    case Atom(_, args) => forall i :: 0 <= i < |args| && args[i].Var? ==> args[i].slot < n
    case Compare(_, l, r) => (l.Var? ==> l.slot < n) && (r.Var? ==> r.slot < n)
    case Not(c) => SlotsOk(c, n)
    case And(cs) => forall i :: 0 <= i < |cs| ==> SlotsOk(cs[i], n)
    case Or(cs) => forall i :: 0 <= i < |cs| ==> SlotsOk(cs[i], n)
    case Imply(x, y) => SlotsOk(x, n) && SlotsOk(y, n)
    case Quant(_, bound, body) => (forall i :: 0 <= i < |bound| ==> bound[i].slot < n) && SlotsOk(body, n)
  }

  /** Every quantified variable has a type, as the loader sees to. */
  ghost predicate Typed(e: Expr) {
    match e
    case Not(c) => Typed(c)
    case And(cs) => forall i :: 0 <= i < |cs| ==> Typed(cs[i])
    case Or(cs) => forall i :: 0 <= i < |cs| ==> Typed(cs[i])
    case Imply(x, y) => Typed(x) && Typed(y)
    case Quant(_, bound, body) => (forall i :: 0 <= i < |bound| ==> bound[i].types != []) && Typed(body)
    case _ => true
  }

  // ----- Meaning -----

  function Resolve(kb: Kb, name: string): Val {
    if name in kb.ids then Obj(kb.ids[name]) else Text(name)
  }

  function Value(kb: Kb, t: Term, a: Vals): Val
    requires t.Var? ==> t.slot < |a|
  {
    if t.Const? then Resolve(kb, t.name) else a[t.slot]
  }

  /** The values are the tuple's objects. */
  ghost predicate Names(vs: Vals, t: seq<nat>) {
    |vs| == |t| && forall i :: 0 <= i < |t| ==> vs[i] == Obj(t[i])
  }

  /** A fact holds when it is listed. Without arguments it holds when the relation is not empty. */
  ghost predicate Fact(kb: Kb, p: string, vs: Vals) {
    p in kb.rels &&
    if vs == [] then kb.rels[p].tuples != []
    else kb.rels[p].arity == |vs| && exists t :: t in kb.rels[p].tuples && Names(vs, t)
  }

  ghost function Values(kb: Kb, args: seq<Term>, a: Vals): Vals
    requires forall i :: 0 <= i < |args| && args[i].Var? ==> args[i].slot < |a|
  {
    seq(|args|, i requires 0 <= i < |args| => Value(kb, args[i], a))
  }

  ghost predicate HasType(kb: Kb, v: Val, t: string) {
    Fact(kb, t, [v])
  }

  ghost predicate HasTypes(kb: Kb, v: Val, types: seq<string>) {
    forall i :: 0 <= i < |types| ==> HasType(kb, v, types[i])
  }

  /** `b` is `a` with the quantified variables given objects of their types. */
  ghost predicate Instance(kb: Kb, bound: seq<Bound>, a: Vals, b: Vals) {
    && |b| == |a|
    && (forall s: nat :: s < |a| && s !in Own(bound) ==> b[s] == a[s])
    && (forall i :: 0 <= i < |bound| ==> bound[i].slot < |b| && b[bound[i].slot].Obj?)
    && (forall i :: 0 <= i < |bound| ==>
        b[bound[i].slot].id < |kb.names| && HasTypes(kb, b[bound[i].slot], bound[i].types))
  }

  ghost predicate Sat(kb: Kb, e: Expr, a: Vals)
    requires SlotsOk(e, |a|)
  {
    match e
    case Absent => true
    case Atom(p, args) => Fact(kb, p, Values(kb, args, a))
    case Compare(equals, l, r) => equals == (Value(kb, l, a) == Value(kb, r, a))
    case Not(c) => !Sat(kb, c, a)
    case And(cs) => forall i :: 0 <= i < |cs| ==> Sat(kb, cs[i], a)
    case Or(cs) => exists i :: 0 <= i < |cs| && Sat(kb, cs[i], a)
    case Imply(x, y) => (Sat(kb, x, a) ==> Sat(kb, y, a))
    case Quant(all, bound, body) =>
      if all then forall b: Vals :: |b| == |a| && Instance(kb, bound, a, b) ==> Sat(kb, body, b)
      else exists b: Vals :: |b| == |a| && Instance(kb, bound, a, b) && Sat(kb, body, b)
  }

  lemma {:induction false} FreeAmongAll(e: Expr)
    ensures Free(e) <= AllVars(e)
  {
    match e
    case Not(c) => FreeAmongAll(c);
    case And(cs) =>
      forall i | 0 <= i < |cs|
        ensures Free(cs[i]) <= AllVars(cs[i])
      {
        FreeAmongAll(cs[i]);
      }
    case Or(cs) =>
      forall i | 0 <= i < |cs|
        ensures Free(cs[i]) <= AllVars(cs[i])
      {
        FreeAmongAll(cs[i]);
      }
    case Imply(x, y) =>
      FreeAmongAll(x);
      FreeAmongAll(y);
    case _ =>
  }

  /** The quantified variables' values from `b`, and the others' from `a`. */
  function Graft(bound: seq<Bound>, a: Vals, b: Vals): Vals
    requires |a| == |b|
  {
    seq(|a|, s requires 0 <= s < |a| => if s in Own(bound) then b[s] else a[s])
  }

  lemma GraftInstance(kb: Kb, bound: seq<Bound>, a: Vals, b: Vals, a': Vals)
    requires |b| == |a| == |a'| && Instance(kb, bound, a, b)
    ensures Instance(kb, bound, a', Graft(bound, a', b))
  {
    assert forall i :: 0 <= i < |bound| ==> bound[i].slot in Own(bound);
  }

  lemma GraftSame(kb: Kb, e: Expr, a: Vals, b: Vals, a': Vals)
    requires e.Quant? && SlotsOk(e, |a|) && |b| == |a| == |a'| && Instance(kb, e.bound, a, b)
    requires forall s <- Free(e) :: s < |a| ==> a[s] == a'[s]
    ensures Sat(kb, e.body, b) == Sat(kb, e.body, Graft(e.bound, a', b))
    decreases e, 0
  {
    FreeAmongAll(e.body);
    Coincidence(kb, e.body, b, Graft(e.bound, a', b));
  }

  lemma QuantCoincidence(kb: Kb, e: Expr, a: Vals, a': Vals)
    requires e.Quant? && SlotsOk(e, |a|) && |a| == |a'| && forall s <- Free(e) :: s < |a| ==> a[s] == a'[s]
    ensures e.all && Sat(kb, e, a') ==> Sat(kb, e, a)
    ensures !e.all && Sat(kb, e, a) ==> Sat(kb, e, a')
    decreases e, 1
  {
    forall b: Vals | |b| == |a| && Instance(kb, e.bound, a, b)
      ensures Instance(kb, e.bound, a', Graft(e.bound, a', b))
      ensures Sat(kb, e.body, b) == Sat(kb, e.body, Graft(e.bound, a', b))
    {
      GraftInstance(kb, e.bound, a, b, a');
      GraftSame(kb, e, a, b, a');
    }
  }

  /** Truth depends on the free variables only. */
  lemma {:induction false} Coincidence(kb: Kb, e: Expr, a: Vals, a': Vals)
    requires |a| == |a'| && SlotsOk(e, |a|) && forall s <- Free(e) :: s < |a| ==> a[s] == a'[s]
    ensures Sat(kb, e, a) == Sat(kb, e, a')
    decreases e, 2
  {
    match e
    case Absent =>
    case Atom(p, args) =>
      assert Values(kb, args, a) == Values(kb, args, a');
    case Compare(equals, l, r) =>
    case Not(c) =>
      Coincidence(kb, c, a, a');
    case And(cs) =>
      forall i | 0 <= i < |cs|
        ensures Sat(kb, cs[i], a) == Sat(kb, cs[i], a')
      {
        assert forall s <- Free(cs[i]) :: s in Free(e);
        Coincidence(kb, cs[i], a, a');
      }
    case Or(cs) =>
      forall i | 0 <= i < |cs|
        ensures Sat(kb, cs[i], a) == Sat(kb, cs[i], a')
      {
        assert forall s <- Free(cs[i]) :: s in Free(e);
        Coincidence(kb, cs[i], a, a');
      }
    case Imply(x, y) =>
      Coincidence(kb, x, a, a');
      Coincidence(kb, y, a, a');
    case Quant(all, bound, body) =>
      QuantCoincidence(kb, e, a, a');
      QuantCoincidence(kb, e, a', a);
  }
}
